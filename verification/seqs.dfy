/** Order-preserving filtering of sequences, the shape of a Python loop that appends
    the elements passing a test to a list. */
module Seqs {

  /** The elements of `s` that satisfy `p`, in their order in `s`. */
  function Filter<T>(p: T -> bool, s: seq<T>): (r: seq<T>)
    ensures |r| <= |s|
    ensures forall x :: x in r ==> x in s && p(x)
  {
    if |s| == 0 then []
    else Filter(p, s[..|s| - 1]) + (if p(s[|s| - 1]) then [s[|s| - 1]] else [])
  }

  /** Filtering commutes with concatenation: the relative order of the input is kept. */
  lemma {:induction false} FilterConcat<T>(p: T -> bool, a: seq<T>, b: seq<T>)
    ensures Filter(p, a + b) == Filter(p, a) + Filter(p, b)
    decreases |b|
  {
    if |b| == 0 {
      assert a + b == a;
    } else {
      var b' := b[..|b| - 1];
      assert (a + b)[..|a + b| - 1] == a + b';
      assert (a + b)[|a + b| - 1] == b[|b| - 1];
      FilterConcat(p, a, b');
      var tail := if p(b[|b| - 1]) then [b[|b| - 1]] else [];
      assert Filter(p, a + b) == Filter(p, a + b') + tail;
      assert Filter(p, b) == Filter(p, b') + tail;
    }
  }

  /** Every element passing the test is kept. */
  lemma {:induction false} FilterKeeps<T>(p: T -> bool, s: seq<T>, x: T)
    requires x in s && p(x)
    ensures x in Filter(p, s)
    decreases |s|
  {
    if s[|s| - 1] != x {
      var i :| 0 <= i < |s| && s[i] == x;
      assert s[..|s| - 1][i] == x;
      FilterKeeps(p, s[..|s| - 1], x);
    }
  }

  /** The elements of `s` that fail `p`, in their order in `s`. */
  function Reject<T>(p: T -> bool, s: seq<T>): (r: seq<T>)
    ensures |r| <= |s|
    ensures forall x :: x in r ==> x in s && !p(x)
  {
    if |s| == 0 then []
    else Reject(p, s[..|s| - 1]) + (if p(s[|s| - 1]) then [] else [s[|s| - 1]])
  }

  /** Every element failing the test is kept by `Reject`. */
  lemma {:induction false} RejectKeeps<T>(p: T -> bool, s: seq<T>, x: T)
    requires x in s && !p(x)
    ensures x in Reject(p, s)
    decreases |s|
  {
    if s[|s| - 1] != x {
      var i :| 0 <= i < |s| && s[i] == x;
      assert s[..|s| - 1][i] == x;
      RejectKeeps(p, s[..|s| - 1], x);
    }
  }

  /** Adding one element to one side of a split of `s` splits `s + [x]`. */
  lemma AppendToSplit<T>(a: seq<T>, b: seq<T>, s: seq<T>, a': seq<T>, b': seq<T>)
    requires |s| > 0
    requires multiset(a) + multiset(b) == multiset(s[..|s| - 1])
    requires (a' == a + [s[|s| - 1]] && b' == b) || (a' == a && b' == b + [s[|s| - 1]])
    ensures multiset(a') + multiset(b') == multiset(s)
  {
    assert s == s[..|s| - 1] + [s[|s| - 1]];
  }

  /** The last element goes to exactly one side. */
  lemma FilterRejectStep<T>(p: T -> bool, s: seq<T>)
    requires |s| > 0
    ensures p(s[|s| - 1]) ==> Filter(p, s) == Filter(p, s[..|s| - 1]) + [s[|s| - 1]]
                              && Reject(p, s) == Reject(p, s[..|s| - 1])
    ensures !p(s[|s| - 1]) ==> Filter(p, s) == Filter(p, s[..|s| - 1])
                               && Reject(p, s) == Reject(p, s[..|s| - 1]) + [s[|s| - 1]]
  {
  }

  /** Filtering and rejecting by the same test split the input without loss or duplication. */
  lemma {:induction false} FilterRejectSplit<T>(p: T -> bool, s: seq<T>)
    ensures multiset(Filter(p, s)) + multiset(Reject(p, s)) == multiset(s)
    decreases |s|
  {
    if |s| > 0 {
      var s' := s[..|s| - 1];
      var x := s[|s| - 1];
      FilterRejectSplit(p, s');
      FilterRejectStep(p, s);
      AppendToSplit(Filter(p, s'), Reject(p, s'), s, Filter(p, s), Reject(p, s));
    }
  }

}
