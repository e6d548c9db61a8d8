/** The pieces of Go's standard library that the object-storage gateway relies on:
    `filepath.Ext` and `strings.TrimSuffix` (key generation), `path.Base` (key
    recovery) and the `%d` rendering of an integer (the key's timestamp).
    Paths use '/' as their only separator, as on the systems the gateway runs on. */
module GoLib {

  /** True when every character of `s` is a slash (the empty string included). */
  predicate AllSlashes(s: string) {
    forall i :: 0 <= i < |s| ==> s[i] == '/'
  }

  /** `n` slashes. */
  function Slashes(n: nat): (s: string)
    ensures |s| == n && AllSlashes(s)
  {
    seq(n, _ => '/')
  }

  /** True when `c` does not occur in `s`. */
  predicate Lacks(s: string, c: char) {
    forall i :: 0 <= i < |s| ==> s[i] != c
  }

  predicate IsSuffix(suffix: string, s: string) {
    |suffix| <= |s| && s[|s| - |suffix|..] == suffix
  }

  // ---------------------------------------------------------------------------
  // filepath.Ext and strings.TrimSuffix

  /** The index of the last `c` in `s`, or -1; with '/' it is the same as the `lastSlash`
      helper of Go's `path` package. */
  function LastIndexOf(s: string, c: char): (i: int)
    ensures -1 <= i < |s|
    ensures i >= 0 ==> s[i] == c
    ensures forall j :: i < j < |s| ==> s[j] != c
  {
    if s == [] then -1
    else if s[|s| - 1] == c then |s| - 1
    else LastIndexOf(s[..|s| - 1], c)
  }

  /** The scan of `filepath.Ext`: walking left from index `i` (everything to the right
      of it being neither '.' nor '/'), the index of the first '.' met before a '/' or
      the start of the path, or -1 when there is none. */
  function ExtIndex(path: string, i: int): (k: int)
    requires -1 <= i < |path|
    requires forall m :: i < m < |path| ==> path[m] != '.' && path[m] != '/'
    ensures -1 <= k <= i
    ensures k >= 0 ==> path[k] == '.' && forall m :: k < m < |path| ==> path[m] != '.' && path[m] != '/'
    ensures k < 0 ==> forall m :: LastIndexOf(path, '/') < m < |path| ==> path[m] != '.'
    decreases i + 1
  {
    if i < 0 || path[i] == '/' then -1
    else if path[i] == '.' then i
    else ExtIndex(path, i - 1)
  }

  /** `filepath.Ext`: the suffix of `path` that starts at the last '.' of its final
      '/'-separated element, or "" when that element has no '.'. */
  function Ext(path: string): (ext: string)
    ensures IsSuffix(ext, path)
    ensures ext != [] ==> ext[0] == '.' && Lacks(ext, '/') && Lacks(ext[1..], '.')
    ensures ext == [] ==> forall m :: LastIndexOf(path, '/') < m < |path| ==> path[m] != '.'
  {
    var k := ExtIndex(path, |path| - 1);
    if k >= 0 then path[k..] else []
  }

  /** `strings.TrimSuffix`: `s` without `suffix` when it ends with it, `s` unchanged otherwise. */
  function TrimSuffix(s: string, suffix: string): (r: string)
    ensures IsSuffix(suffix, s) ==> r + suffix == s
    ensures !IsSuffix(suffix, s) ==> r == s
  {
    if IsSuffix(suffix, s) then s[..|s| - |suffix|] else s
  }

  /** The name without its extension: what TrimSuffix leaves of `path` once Ext is removed. */
  lemma StemAndExt(path: string)
    ensures TrimSuffix(path, Ext(path)) + Ext(path) == path
    ensures TrimSuffix(path, Ext(path)) == path[..|path| - |Ext(path)|]
  {
  }

  /** Ext reads only the final element: a non-empty extension stays the extension
      whatever is placed in front of it. */
  lemma ExtOfExtended(front: string, ext: string)
    requires ext != [] && ext[0] == '.' && Lacks(ext, '/') && Lacks(ext[1..], '.')
    ensures Ext(front + ext) == ext
  {
    var p := front + ext;
    assert p[|front|] == '.';
    assert forall m :: |front| < m < |p| ==> p[m] == ext[1..][m - |front| - 1];
    assert ExtIndex(p, |p| - 1) == |front|;
    assert p[|front|..] == ext;
  }

  /** Appending characters that are neither '.' nor '/' to a path whose final element
      has no '.' leaves it without an extension. */
  lemma NoExtAfterPlainTail(front: string, tail: string)
    requires Ext(front) == []
    requires Lacks(tail, '.') && Lacks(tail, '/')
    ensures Ext(front + tail) == []
  {
    var p := front + tail;
    assert forall m :: |front| <= m < |p| ==> p[m] == tail[m - |front|];
    assert forall m :: 0 <= m < |front| ==> p[m] == front[m];
    var k := ExtIndex(p, |p| - 1);
    var r := LastIndexOf(front, '/');
    assert r >= 0 ==> p[r] == '/';
    assert k >= 0 ==> k < |front| && r < k;
    assert k < 0;
  }

  // ---------------------------------------------------------------------------
  // path.Base

  /** `path` with every trailing '/' removed. */
  function TrimTrailingSlashes(path: string): (t: string)
    ensures |t| <= |path| && t == path[..|t|]
    ensures AllSlashes(path[|t|..])
    ensures t == [] || t[|t| - 1] != '/'
  {
    if path != [] && path[|path| - 1] == '/' then
      var t := TrimTrailingSlashes(path[..|path| - 1]);
      assert path[|t|..] == path[..|path| - 1][|t|..] + ['/'];
      t
    else path
  }

  /** `path.Base`: "." for the empty path, "/" for a path of slashes only, and otherwise
      the last non-empty element, trailing slashes ignored. */
  function Base(path: string): (r: string)
    ensures path == [] ==> r == "."
    ensures path != [] && AllSlashes(path) ==> r == "/"
    ensures !AllSlashes(path) ==> r != [] && Lacks(r, '/')
    ensures !AllSlashes(path) ==>
      var t := TrimTrailingSlashes(path);
      IsSuffix(r, t) && (|r| == |t| || t[|t| - |r| - 1] == '/')
  {
    if path == [] then "."
    else
      var elem := LastElement(TrimTrailingSlashes(path));
      TrimmedEmptyIffAllSlashes(path);
      if elem == [] then "/" else elem
  }

  /** Trimming the trailing slashes leaves nothing exactly when the path is all slashes. */
  lemma TrimmedEmptyIffAllSlashes(path: string)
    ensures TrimTrailingSlashes(path) == [] <==> AllSlashes(path)
  {
    var t := TrimTrailingSlashes(path);
    assert t == [] ==> path[|t|..] == path;
    assert t != [] ==> path[|t| - 1] == t[|t| - 1];
  }

  /** What follows the last '/' of `t` (all of `t` when it has none). When `t` does not end
      in '/', this is a non-empty element free of '/' that is either the whole of `t` or
      preceded by a '/'. */
  function LastElement(t: string): (elem: string)
    ensures IsSuffix(elem, t)
    ensures t == [] ==> elem == []
    ensures t != [] && t[|t| - 1] != '/' ==>
      elem != [] && Lacks(elem, '/') && (|elem| == |t| || t[|t| - |elem| - 1] == '/')
  {
    var i := LastIndexOf(t, '/');
    if i >= 0 then t[i + 1..] else t
  }

  /** Base inverts the joining of a directory and an element: any path made of a
      directory (empty or ending in '/'), a non-empty element without '/' and any number
      of trailing slashes has that element as its base. */
  lemma {:induction false} BaseOfJoin(dir: string, elem: string, n: nat)
    requires elem != [] && Lacks(elem, '/')
    requires dir == [] || dir[|dir| - 1] == '/'
    ensures Base(dir + elem + Slashes(n)) == elem
  {
    var p := dir + elem + Slashes(n);
    TrimJoin(dir + elem, n);
    var t := TrimTrailingSlashes(p);
    assert t == dir + elem;
    assert p[|p| - 1] != '/' || n > 0;
    var i := LastIndexOf(t, '/');
    assert forall j :: |dir| <= j < |t| ==> t[j] == elem[j - |dir|];
    assert dir != [] ==> t[|dir| - 1] == '/';
    assert i == |dir| - 1;
    assert (if i >= 0 then t[i + 1..] else t) == elem;
  }

  /** Trailing slashes added to a path that does not end in '/' are exactly what
      TrimTrailingSlashes removes. */
  lemma {:induction false} TrimJoin(s: string, n: nat)
    requires s == [] || s[|s| - 1] != '/'
    ensures TrimTrailingSlashes(s + Slashes(n)) == s
    decreases n
  {
    if n == 0 {
      assert s + Slashes(0) == s;
    } else {
      var p := s + Slashes(n);
      assert p[|p| - 1] == '/';
      assert p[..|p| - 1] == s + Slashes(n - 1);
      TrimJoin(s, n - 1);
    }
  }

  /** The converse of BaseOfJoin: every path that is not all slashes splits into a
      directory, its base and trailing slashes. With BaseOfJoin, Base(path) == elem holds
      exactly when path has such a decomposition ending in elem. */
  lemma BaseDecomposes(path: string)
    requires !AllSlashes(path)
    ensures var t := TrimTrailingSlashes(path);
      var dir := t[..|t| - |Base(path)|];
      path == dir + Base(path) + Slashes(|path| - |t|) && (dir == [] || dir[|dir| - 1] == '/')
  {
    SplitAtElement(path, Base(path));
  }

  /** A path splits into a directory, an element that ends the trimmed path and is either
      all of it or preceded by a '/', and the trailing slashes. */
  lemma SplitAtElement(path: string, elem: string)
    requires var t := TrimTrailingSlashes(path);
      IsSuffix(elem, t) && (|elem| == |t| || t[|t| - |elem| - 1] == '/')
    ensures var t := TrimTrailingSlashes(path);
      var dir := t[..|t| - |elem|];
      path == dir + elem + Slashes(|path| - |t|) && (dir == [] || dir[|dir| - 1] == '/')
  {
    var t := TrimTrailingSlashes(path);
    var dir := t[..|t| - |elem|];
    var trailing := Slashes(|path| - |t|);
    TrailingSlashes(path);
    assert path == dir + elem + trailing by {
      assert t == dir + elem;
      assert path == t + trailing;
    }
    assert dir != [] ==> dir[|dir| - 1] == t[|t| - |elem| - 1];
  }

  /** What TrimTrailingSlashes removes is a run of slashes. */
  lemma TrailingSlashes(path: string)
    ensures var t := TrimTrailingSlashes(path);
      path == t + Slashes(|path| - |t|)
  {
    var t := TrimTrailingSlashes(path);
    var trailing := path[|t|..];
    assert trailing == Slashes(|path| - |t|);
    assert path == t + trailing;
  }

  /** Trailing slashes do not change the base of a non-empty path. */
  lemma BaseIgnoresTrailingSlash(path: string)
    requires path != []
    ensures Base(path + "/") == Base(path)
  {
    var p := path + "/";
    assert p[..|p| - 1] == path;
    assert TrimTrailingSlashes(p) == TrimTrailingSlashes(path);
    if AllSlashes(path) {
      assert AllSlashes(p);
    } else {
      assert !AllSlashes(p) by { var i :| 0 <= i < |path| && path[i] != '/'; assert p[i] == path[i]; }
    }
  }

  // ---------------------------------------------------------------------------
  // Decimal rendering of integers (`%d` in fmt.Sprintf) and its inverse

  predicate IsDigit(c: char) {
    '0' <= c <= '9'
  }

  function DigitChar(d: nat): (c: char)
    requires d < 10
    ensures IsDigit(c) && c as int - '0' as int == d
  {
    ('0' as int + d) as char
  }

  /** The decimal digits of `n`, most significant first, without leading zeros; read
      back in base ten they give `n`. */
  function NatToDecimal(n: nat): (s: string)
    ensures s != [] && forall i :: 0 <= i < |s| ==> IsDigit(s[i])
    ensures |s| > 1 ==> s[0] != '0'
    ensures DecimalValue(s) == n
    decreases n
  {
    if n < 10 then [DigitChar(n)]
    else
      var s := NatToDecimal(n / 10) + [DigitChar(n % 10)];
      assert s[..|s| - 1] == NatToDecimal(n / 10);
      s
  }

  /** `%d`: a '-' for negative numbers, then the digits of the magnitude. */
  function FormatInt(n: int): (s: string)
    ensures s != []
    ensures (s[0] == '-') == (n < 0)
    ensures forall i :: (if n < 0 then 1 else 0) <= i < |s| ==> IsDigit(s[i])
  {
    if n < 0 then "-" + NatToDecimal(-n) else NatToDecimal(n)
  }

  /** The value of a string of digits read in base ten (any other character counts as its
      offset from '0'; numbers are only read back from what FormatInt produced). */
  function DecimalValue(s: string): int {
    if s == [] then 0 else DecimalValue(s[..|s| - 1]) * 10 + (s[|s| - 1] as int - '0' as int)
  }

  /** The integer a `%d` rendering stands for. */
  function ParseInt(s: string): int {
    if s != [] && s[0] == '-' then -DecimalValue(s[1..]) else DecimalValue(s)
  }

  /** Reading back a rendered integer gives the integer: FormatInt is injective. */
  lemma FormatIntRoundTrip(n: int)
    ensures ParseInt(FormatInt(n)) == n
  {
    if n < 0 {
      assert FormatInt(n)[1..] == NatToDecimal(-n);
    }
  }

  /** A rendered integer holds only a sign and digits, so no separator of a key or a path. */
  lemma FormatIntIsPlain(n: int)
    ensures Lacks(FormatInt(n), '.') && Lacks(FormatInt(n), '/') && Lacks(FormatInt(n), '_')
    ensures Lacks(FormatInt(n), '?') && Lacks(FormatInt(n), '#') && Lacks(FormatInt(n), '%')
  {
    var s := FormatInt(n);
    forall i | 0 <= i < |s| ensures s[i] !in "./_?#%" {
      if i > 0 || n >= 0 { assert IsDigit(s[i]); }
    }
  }
}
