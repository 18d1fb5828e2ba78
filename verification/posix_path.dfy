/** Python's `posixpath` functions used by the converter: `basename`, `dirname`, `join`
    (two components) and `splitext`, on paths written with `/`. */
module PosixPath {

  const Sep: char := '/'
  const ExtSep: char := '.'

  /** Python's `str.rfind` for one character: the index of the last `c` in `s`, or -1. */
  function RFind(s: string, c: char): (r: int)
    ensures -1 <= r < |s|
    ensures r >= 0 ==> s[r] == c
    ensures forall j :: r < j < |s| ==> s[j] != c
  {
    if |s| == 0 then -1
    else if s[|s| - 1] == c then |s| - 1
    else RFind(s[..|s| - 1], c)
  }

  /** The last `c` of `a + b` is the last one of `b` if `b` has one, and otherwise the last of `a`. */
  lemma RFindConcat(a: string, b: string, c: char)
    ensures RFind(a + b, c) == if RFind(b, c) >= 0 then |a| + RFind(b, c) else RFind(a, c)
  {
    var r := RFind(a + b, c);
    var rb := RFind(b, c);
    var ra := RFind(a, c);
    if rb >= 0 {
      assert (a + b)[|a| + rb] == c;
    } else if ra >= 0 {
      assert (a + b)[ra] == c;
      assert forall j :: ra < j < |a| + |b| ==> (a + b)[j] != c by {
        forall j | ra < j < |a| + |b| ensures (a + b)[j] != c {
          if j >= |a| { assert (a + b)[j] == b[j - |a|]; }
        }
      }
    } else {
      assert forall j :: -1 < j < |a| + |b| ==> (a + b)[j] != c by {
        forall j | -1 < j < |a| + |b| ensures (a + b)[j] != c {
          if j >= |a| { assert (a + b)[j] == b[j - |a|]; }
        }
      }
    }
  }

  /** The part of `p` up to and including its last separator (empty when there is none). */
  function Head(p: string): (h: string)
    ensures |h| == 0 || h[|h| - 1] == Sep
    ensures |h| <= |p| && h == p[..|h|]
  {
    p[..RFind(p, Sep) + 1]
  }

  /** `os.path.basename`: everything after the last `/`. */
  function Basename(p: string): (r: string)
    ensures Sep !in r
    ensures Head(p) + r == p
  {
    p[RFind(p, Sep) + 1..]
  }

  /** Both halves are determined by where the last separator falls. */
  lemma HeadBasenameOfConcat(h: string, n: string)
    requires |h| == 0 || h[|h| - 1] == Sep
    requires Sep !in n
    ensures Head(h + n) == h && Basename(h + n) == n
  {
    RFindConcat(h, n, Sep);
    assert RFind(n, Sep) == -1;
    assert |h| > 0 ==> RFind(h, Sep) == |h| - 1;
    assert (h + n)[..|h|] == h;
    assert (h + n)[|h|..] == n;
  }

  predicate AllSeps(s: string) {
    forall i :: 0 <= i < |s| ==> s[i] == Sep
  }

  /** `str.rstrip('/')`. */
  function RStripSeps(s: string): (r: string)
    ensures |r| <= |s| && r == s[..|r|]
    ensures |r| == 0 || r[|r| - 1] != Sep
    ensures forall i :: |r| <= i < |s| ==> s[i] == Sep
  {
    if |s| == 0 || s[|s| - 1] != Sep then s else RStripSeps(s[..|s| - 1])
  }

  /** `os.path.dirname`: the head with its trailing separators removed, unless the head
      consists of separators only (so the root stays `/`). */
  function Dirname(p: string): (r: string)
    ensures |r| <= |Head(p)| && r == Head(p)[..|r|]
    ensures AllSeps(Head(p)) ==> r == Head(p)
    ensures !AllSeps(Head(p)) ==>
      |r| > 0 && r[|r| - 1] != Sep && forall i :: |r| <= i < |Head(p)| ==> Head(p)[i] == Sep
  {
    var h := Head(p);
    if |h| > 0 && !AllSeps(h) then RStripSeps(h) else h
  }

  /** Whether `p` starts at the root. */
  predicate IsAbsolute(p: string) {
    |p| > 0 && p[0] == Sep
  }

  /** `os.path.join(a, b)`: an absolute `b` discards `a`; otherwise one separator is put
      between them unless `a` is empty or already ends with one. */
  function Join(a: string, b: string): (r: string)
    ensures IsAbsolute(b) ==> r == b
    ensures !IsAbsolute(b) ==> exists mid :: mid in {"", "/"} && r == a + mid + b
  {
    if IsAbsolute(b) then b
    else if |a| == 0 || a[|a| - 1] == Sep then
      assert a + b == a + "" + b;
      a + b
    else a + "/" + b
  }

  /** The directory part that `Join(a, b)` puts in front of a relative `b`. */
  function JoinPrefix(a: string): (j: string)
    ensures |j| == 0 || j[|j| - 1] == Sep
  {
    if |a| == 0 || a[|a| - 1] == Sep then a else a + "/"
  }

  lemma JoinRelative(a: string, b: string)
    requires !IsAbsolute(b)
    ensures Join(a, b) == JoinPrefix(a) + b
  {
  }

  /** Joining a plain name onto a directory and taking the path apart again gives back
      both: `basename` returns the name, and `dirname` the directory whenever it does not
      end with a separator. */
  lemma JoinThenSplit(a: string, b: string)
    requires Sep !in b
    ensures Basename(Join(a, b)) == b
    ensures |a| == 0 || a[|a| - 1] != Sep ==> Dirname(Join(a, b)) == a
  {
    assert !IsAbsolute(b) by { if |b| > 0 { assert b[0] in b; } }
    var j := JoinPrefix(a);
    HeadBasenameOfConcat(j, b);
    if |a| > 0 && a[|a| - 1] != Sep {
      assert j == a + "/";
      assert j[|a| - 1] != Sep && j[|a|] == Sep;
      assert !AllSeps(j);
      var d := Dirname(Join(a, b));
      assert |d| > 0 && d[|d| - 1] == j[|d| - 1] != Sep;
      assert forall i :: |d| <= i < |j| ==> j[i] == Sep;
      assert |d| == |a|;
      assert d == j[..|a|] == a;
    }
  }

  /** Whether `s` holds a character other than a dot. */
  predicate HasNonDot(s: string) {
    exists i :: 0 <= i < |s| && s[i] != ExtSep
  }

  /** Where `os.path.splitext` cuts `p`: at the last dot, provided it lies in the
      basename and something other than dots precedes it there; otherwise at the end. */
  function ExtStart(p: string): (e: nat)
    ensures e <= |p|
    ensures e < |p| ==> p[e] == ExtSep && |Head(p)| <= e
  {
    var sep := RFind(p, Sep);
    var dot := RFind(p, ExtSep);
    if dot > sep && HasNonDot(p[sep + 1..dot]) then dot else |p|
  }

  /** `os.path.splitext`: `(root, ext)` with `root + ext == p`. */
  function SplitExt(p: string): (r: (string, string))
    ensures r.0 + r.1 == p
    ensures |r.1| == 0 || (r.1[0] == ExtSep && Sep !in r.1 && ExtSep !in r.1[1..])
  {
    var e := ExtStart(p);
    assert p[..e] + p[e..] == p;
    (p[..e], p[e..])
  }

  /** `os.path.splitext(p)[1]`. */
  function Extension(p: string): string {
    SplitExt(p).1
  }

  /** The last separator of `h + n` is the one that ends `h`. */
  lemma LastSepOfConcat(h: string, n: string)
    requires |h| == 0 || h[|h| - 1] == Sep
    requires Sep !in n
    ensures RFind(h + n, Sep) == |h| - 1
  {
    RFindConcat(h, n, Sep);
    assert RFind(n, Sep) == -1;
    if |h| > 0 {
      assert RFind(h, Sep) == |h| - 1;
    }
  }

  /** The cut point of `h + n` is the cut point of `n`, shifted past `h`. */
  lemma ExtStartOfConcat(h: string, n: string)
    requires |h| == 0 || h[|h| - 1] == Sep
    requires Sep !in n
    ensures ExtStart(h + n) == |h| + ExtStart(n)
  {
    var p := h + n;
    LastSepOfConcat(h, n);
    RFindConcat(h, n, ExtSep);
    assert RFind(n, Sep) == -1;
    var dotN := RFind(n, ExtSep);
    if dotN >= 0 {
      assert p[|h|..|h| + dotN] == n[0..dotN];
    }
  }

  lemma SplitExtAt(p: string)
    ensures SplitExt(p).0 == p[..ExtStart(p)] && SplitExt(p).1 == p[ExtStart(p)..]
  {
  }

  lemma ConcatSlices(h: string, n: string, e: nat)
    requires e <= |n|
    ensures (h + n)[..|h| + e] == h + n[..e] && (h + n)[|h| + e..] == n[e..]
  {
  }

  /** `splitext` looks at the basename only: the directory part is carried through unchanged. */
  lemma SplitExtOfConcat(h: string, n: string)
    requires |h| == 0 || h[|h| - 1] == Sep
    requires Sep !in n
    ensures SplitExt(h + n).0 == h + SplitExt(n).0
    ensures SplitExt(h + n).1 == SplitExt(n).1
  {
    ExtStartOfConcat(h, n);
    SplitExtAt(n);
    SplitExtAt(h + n);
    ConcatSlices(h, n, ExtStart(n));
  }

  /** Cutting the extension off a relative name joined onto a directory cuts it off the name. */
  lemma SplitExtOfJoin(a: string, n: string)
    requires Sep !in n && !IsAbsolute(n)
    ensures SplitExt(Join(a, n)).0 == JoinPrefix(a) + SplitExt(n).0
  {
    JoinRelative(a, n);
    SplitExtOfConcat(JoinPrefix(a), n);
  }
}
