/** Facts about concatenation that proofs call by name.

    The verifier compares two sequences element by element when an equality between them is to
    be proved. Contracts and invariants that are met by a chain of equal terms, not by looking at
    elements, therefore compare Some(x) with Some(y), which says the same. */
module Sequences {
  import opened Utf8

  lemma Assoc<T>(a: seq<T>, b: seq<T>, c: seq<T>)
    ensures a + b + c == a + (b + c)
  {
  }

  lemma Slices<T>(s: seq<T>, i: nat, n: nat)
    requires i + n <= |s|
    ensures s[i..][n..] == s[i + n..] && s[i..][..n] == s[i..i + n]
  {
  }

  lemma Cut<T>(s: seq<T>, n: nat)
    requires n <= |s|
    ensures Some(s) == Some(s[..n] + s[n..])
  {
    assert s == s[..n] + s[n..];
  }

  lemma InitLast<T>(s: seq<T>)
    requires s != []
    ensures Some(s) == Some(s[..|s| - 1] + [s[|s| - 1]])
  {
    assert s == s[..|s| - 1] + [s[|s| - 1]];
  }

  lemma InitTake<T>(s: seq<T>, n: nat)
    requires n < |s|
    ensures Some(s[..n]) == Some(s[..|s| - 1][..n]) && Some(s[..|s|]) == Some(s)
    ensures Some(s[..|s| - 1][..|s| - 1]) == Some(s[..|s| - 1])
  {
    assert s[..n] == s[..|s| - 1][..n] && s[..|s|] == s && s[..|s| - 1][..|s| - 1] == s[..|s| - 1];
  }

  lemma Split<T>(a: seq<T>, b: seq<T>)
    ensures (a + b)[|a|..] == b && (a + b)[..|a|] == a
    ensures b != [] ==> (a + b)[|a + b| - 1] == b[|b| - 1]
  {
  }

  lemma SameParts<T>(a: seq<T>, b: seq<T>, c: seq<T>, d: seq<T>)
    requires |a| >= |c| && |b| >= |d|
    ensures a + b == c + d <==> a == c && b == d
  {
    if a + b == c + d {
      assert |a + b| == |c + d|;
      assert a == (a + b)[..|a|] && b == (a + b)[|a|..];
    }
  }

  function Concat<T>(xs: seq<seq<T>>): seq<T> {
    if xs == [] then [] else xs[0] + Concat(xs[1..])
  }

  lemma {:induction false} ConcatJoin<T>(xs: seq<seq<T>>, ys: seq<seq<T>>)
    ensures Concat(xs + ys) == Concat(xs) + Concat(ys)
    decreases |xs|
  {
    if xs == [] {
      assert xs + ys == ys;
    } else {
      ConcatJoin(xs[1..], ys);
      assert (xs + ys)[1..] == xs[1..] + ys;
    }
  }

  lemma ConcatLast<T>(xs: seq<seq<T>>, x: seq<T>)
    ensures Concat(xs + [x]) == Concat(xs) + x
  {
    ConcatJoin(xs, [x]);
    assert Concat([x]) == x + Concat([]);
  }
}
