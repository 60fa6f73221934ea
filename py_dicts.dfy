/**
 * A constant Python dict with string keys, as the list of its entries in
 * insertion order; `Get` is `d.get(key)` and `Keys` is `list(d.keys())`.
 */
module PyDicts {
  import opened Outcomes

  /** `list(d.keys())`, in insertion order. */
  function Keys<V>(table: seq<(string, V)>): seq<string> {
    if table == [] then [] else [table[0].0] + Keys(table[1..])
  }

  /** `d.get(key)`: the value of the first entry whose key is `key`, or `None`. */
  function Get<V>(table: seq<(string, V)>, key: string): Option<V> {
    if table == [] then None
    else if table[0].0 == key then Some(table[0].1)
    else Get(table[1..], key)
  }

  /** The keys are the entries' keys, one per entry, in order. */
  lemma {:induction false} KeysAt<V>(table: seq<(string, V)>)
    ensures |Keys(table)| == |table|
    ensures forall i | 0 <= i < |table| :: Keys(table)[i] == table[i].0
  {
    if table != [] {
      KeysAt(table[1..]);
      var rest := Keys(table[1..]);
      assert Keys(table) == [table[0].0] + rest;
      forall i | 0 <= i < |table|
        ensures Keys(table)[i] == table[i].0
      {
        if i > 0 {
          assert Keys(table)[i] == rest[i - 1] && table[1..][i - 1] == table[i];
        }
      }
    }
  }

  /** A lookup misses exactly when no entry has the key, and a hit is the value of an entry with the key. */
  lemma {:induction false} GetSpec<V>(table: seq<(string, V)>, key: string)
    ensures Get(table, key).None? <==> forall i | 0 <= i < |table| :: table[i].0 != key
    ensures Get(table, key).Some? ==> exists i | 0 <= i < |table| :: table[i] == (key, Get(table, key).value)
  {
    if table != [] && table[0].0 != key {
      GetSpec(table[1..], key);
      var r := Get(table[1..], key);
      assert Get(table, key) == r;
      if r.Some? {
        var i :| 0 <= i < |table[1..]| && table[1..][i] == (key, r.value);
        assert table[i + 1] == (key, r.value);
      } else {
        forall i | 0 <= i < |table|
          ensures table[i].0 != key
        {
          if i > 0 {
            assert table[i] == table[1..][i - 1];
          }
        }
      }
    }
  }
}
