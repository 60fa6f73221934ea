/**
 * The two POSIX path operations the modelled code relies on:
 * `os.path.splitext` (only its extension half is used) and `os.path.join`
 * of two components.
 */
module PyPaths {

  /** `s.rfind(c)` restricted to the first `n` characters: the last index holding `c`, or -1. */
  function RFind(s: string, c: char, n: nat): (r: int)
    requires n <= |s|
    ensures -1 <= r < n
    ensures r >= 0 ==> s[r] == c
    ensures forall k | r < k < n :: s[k] != c
  {
    if n == 0 then -1 else if s[n - 1] == c then n - 1 else RFind(s, c, n - 1)
  }

  /**
   * The extension `os.path.splitext(p)` splits off: from the last dot of the
   * last path component to the end, provided that component has a character
   * other than a dot before that dot; otherwise the empty string.
   */
  function Extension(p: string): (r: string)
    ensures |r| <= |p| && r == p[|p| - |r|..]
    ensures r != [] ==> r[0] == '.' && forall k | 1 <= k < |r| :: r[k] != '.' && r[k] != '/'
  {
    var sepIndex := RFind(p, '/', |p|);
    var dotIndex := RFind(p, '.', |p|);
    if dotIndex > sepIndex && exists k | sepIndex + 1 <= k < dotIndex :: p[k] != '.' then p[dotIndex..] else ""
  }

  /** The last occurrence of `c` is at `i` when `s[i]` is `c` and no later character is. */
  lemma RFindAt(s: string, c: char, i: nat)
    requires i < |s| && s[i] == c
    requires forall k | i < k < |s| :: s[k] != c
    ensures RFind(s, c, |s|) == i
  {
  }

  /** The last occurrence of `c` is before `i` when no character from `i` on is `c`. */
  lemma RFindBefore(s: string, c: char, i: nat)
    requires i <= |s|
    requires forall k | i <= k < |s| :: s[k] != c
    ensures RFind(s, c, |s|) < i
  {
  }

  /**
   * A name with a character other than a dot, then a dot and a suffix with
   * neither dots nor slashes, has that dot and suffix as its extension,
   * whatever directory precedes it.
   */
  lemma ExtensionOf(dir: string, name: string, suffix: string)
    requires forall k | 0 <= k < |name| :: name[k] != '/'
    requires exists k | 0 <= k < |name| :: name[k] != '.'
    requires forall k | 0 <= k < |suffix| :: suffix[k] != '.' && suffix[k] != '/'
    ensures Extension(dir + name + "." + suffix) == "." + suffix
  {
    var p := dir + name + "." + suffix;
    var dot := |dir| + |name|;
    assert p[dot] == '.';
    assert forall k | dot < k < |p| :: p[k] == suffix[k - dot - 1];
    RFindAt(p, '.', dot);
    assert forall k | |dir| <= k < dot :: p[k] == name[k - |dir|];
    RFindBefore(p, '/', |dir|);
    var j :| 0 <= j < |name| && name[j] != '.';
    assert p[|dir| + j] != '.';
    assert p[dot..] == "." + suffix;
  }

  /**
   * A last component made of dots and a suffix without dots (a "hidden"
   * file such as `.pdf`, or a name without a dot) has no extension.
   */
  lemma LeadingDotsNoExtension(dir: string, dots: nat, suffix: string)
    requires dir == [] || dir[|dir| - 1] == '/'
    requires forall k | 0 <= k < |suffix| :: suffix[k] != '.' && suffix[k] != '/'
    ensures Extension(dir + seq(dots, _ => '.') + suffix) == ""
  {
    var p := dir + seq(dots, _ => '.') + suffix;
    var base := |dir| + dots;
    assert forall k | base <= k < |p| :: p[k] == suffix[k - base];
    assert forall k | |dir| <= k < base :: p[k] == '.';
    RFindBefore(p, '.', base);
    if dir != [] {
      assert p[|dir| - 1] == '/';
      RFindAt(p, '/', |dir| - 1);
    } else {
      RFindBefore(p, '/', 0);
    }
  }

  /** `os.path.join(a, b)` for two components. */
  function PathJoin(a: string, b: string): string {
    if |b| > 0 && b[0] == '/' then b
    else if a == [] || a[|a| - 1] == '/' then a + b
    else a + "/" + b
  }

  /** The joined path ends with its second component. */
  lemma PathJoinEndsWith(a: string, b: string)
    ensures var r := PathJoin(a, b); |b| <= |r| && r[|r| - |b|..] == b
  {
    if !(|b| > 0 && b[0] == '/') {
      var sep := if a == [] || a[|a| - 1] == '/' then a else a + "/";
      assert PathJoin(a, b) == sep + b;
    }
  }
}
