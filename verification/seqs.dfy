/** Generic sequence operations that the source gets from JavaScript's
    Array.prototype (`filter`, `slice(0, n)`), with the facts the model
    needs about them. */
module Seqs {

  /** `s.filter(p)`: the elements of `s` that satisfy `p`, in their order. */
  function Filter<T>(p: T -> bool, s: seq<T>): (r: seq<T>)
    ensures |r| <= |s|
    ensures forall i :: 0 <= i < |r| ==> p(r[i])
  {
    if s == [] then []
    else if p(s[0]) then [s[0]] + Filter(p, s[1..])
    else Filter(p, s[1..])
  }

  /** `r` is obtained from `s` by deleting elements, without reordering. */
  predicate IsSubsequence<T(==)>(r: seq<T>, s: seq<T>)
  {
    if r == [] then true
    else if s == [] then false
    else if r[0] == s[0] then IsSubsequence(r[1..], s[1..])
    else IsSubsequence(r, s[1..])
  }

  /** Filtering keeps every element that satisfies the predicate, with all
      its copies, drops every other one, and never reorders. */
  lemma {:induction false} FilterExact<T>(p: T -> bool, s: seq<T>)
    ensures forall x :: x in Filter(p, s) <==> x in s && p(x)
    ensures forall x :: multiset(Filter(p, s))[x] == if p(x) then multiset(s)[x] else 0
    ensures IsSubsequence(Filter(p, s), s)
  {
    if s != [] {
      FilterExact(p, s[1..]);
      assert s == [s[0]] + s[1..];
      assert multiset(s) == multiset([s[0]]) + multiset(s[1..]);
      if p(s[0]) {
        assert Filter(p, s) == [s[0]] + Filter(p, s[1..]);
      } else {
        SubsequenceOfTail(Filter(p, s[1..]), s);
      }
      forall x | x in s && p(x) ensures x in Filter(p, s) {
        if x != s[0] { assert x in s[1..]; }
      }
    }
  }

  lemma {:induction false} SubsequenceOfTail<T>(r: seq<T>, s: seq<T>)
    requires s != [] && IsSubsequence(r, s[1..])
    ensures IsSubsequence(r, s)
    decreases |s|, 0
  {
    if r != [] && r[0] == s[0] {
      SubsequenceDropHead(r, s[1..]);
    }
  }

  lemma {:induction false} SubsequenceDropHead<T>(r: seq<T>, t: seq<T>)
    requires r != [] && IsSubsequence(r, t)
    ensures IsSubsequence(r[1..], t)
    decreases |t|, 1
  {
    if r[0] == t[0] {
      SubsequenceOfTail(r[1..], t);
    } else {
      SubsequenceDropHead(r, t[1..]);
      SubsequenceOfTail(r[1..], t);
    }
  }

  /** Filtering drops nothing exactly when every element satisfies the
      predicate, and then it returns its input unchanged. */
  lemma {:induction false} FilterKeepsAll<T>(p: T -> bool, s: seq<T>)
    ensures |Filter(p, s)| == |s| <==> forall i :: 0 <= i < |s| ==> p(s[i])
    ensures (forall i :: 0 <= i < |s| ==> p(s[i])) ==> Filter(p, s) == s
  {
    if s != [] {
      FilterKeepsAll(p, s[1..]);
      assert forall i :: 1 <= i < |s| ==> s[i] == s[1..][i - 1];
    }
  }

  /** Filtering twice is filtering once. */
  lemma FilterIdempotent<T>(p: T -> bool, s: seq<T>)
    ensures Filter(p, Filter(p, s)) == Filter(p, s)
  {
    FilterKeepsAll(p, Filter(p, s));
  }

  /** `s.slice(0, n)`: the first `n` elements, or all of them. */
  function Take<T>(s: seq<T>, n: nat): (r: seq<T>)
    ensures |r| == if |s| < n then |s| else n
    ensures forall i :: 0 <= i < |r| ==> r[i] == s[i]
  {
    if |s| <= n then s else s[..n]
  }

  /** Taking `n` of a longer prefix is taking `n`. */
  lemma TakeOfConsTake<T>(x: T, s: seq<T>, n: nat)
    requires n >= 1
    ensures Take([x] + Take(s, n), n) == Take([x] + s, n)
  {
  }

  /** `s` from its last element to its first. */
  function Reversed<T>(s: seq<T>): (r: seq<T>)
    ensures |r| == |s|
  {
    seq(|s|, i requires 0 <= i < |s| => s[|s| - 1 - i])
  }

  /** Reversing puts the last element first. */
  lemma ReversedLastFirst<T>(s: seq<T>)
    requires s != []
    ensures Reversed(s) == [s[|s| - 1]] + Reversed(s[..|s| - 1])
  {
    var init := s[..|s| - 1];
    forall i | 0 <= i < |s| ensures Reversed(s)[i] == ([s[|s| - 1]] + Reversed(init))[i] {
    }
  }

  /** Pushing the elements of `xs` one after another onto the front of `s`,
      keeping at most `n` after each push. */
  function PushAll<T>(s: seq<T>, xs: seq<T>, n: nat): seq<T>
  {
    if xs == [] then s else Take([xs[|xs| - 1]] + PushAll(s, xs[..|xs| - 1], n), n)
  }

  /** After at least one bounded push the result is the pushed elements,
      newest first, ahead of `s`, cut to `n`. */
  lemma {:induction false} PushAllReversed<T>(s: seq<T>, xs: seq<T>, n: nat)
    requires xs != [] && n >= 1
    ensures PushAll(s, xs, n) == Take(Reversed(xs) + s, n)
  {
    var init, last := xs[..|xs| - 1], xs[|xs| - 1];
    ReversedLastFirst(xs);
    assert Reversed(xs) + s == [last] + (Reversed(init) + s);
    if init != [] {
      PushAllReversed(s, init, n);
      TakeOfConsTake(last, Reversed(init) + s, n);
    }
  }

  /** The first six of seven elements reversed, ahead of anything. */
  lemma TakeSixOfSevenReversed<T>(xs: seq<T>, s: seq<T>)
    requires |xs| == 7
    ensures Take(Reversed(xs) + s, 6) == [xs[6], xs[5], xs[4], xs[3], xs[2], xs[1]]
  {
    var r := Reversed(xs) + s;
    forall i | 0 <= i < 6 ensures Take(r, 6)[i] == xs[6 - i] {
      assert r[i] == Reversed(xs)[i];
    }
  }

  /** `Array.prototype.indexOf`: the first position holding `x`, or -1. */
  function IndexOf<T(==)>(s: seq<T>, x: T): (i: int)
    ensures -1 <= i < |s|
    ensures i == -1 <==> x !in s
    ensures 0 <= i ==> s[i] == x && x !in s[..i]
  {
    if s == [] then -1
    else if s[0] == x then 0
    else
      var j := IndexOf(s[1..], x);
      if j < 0 then -1 else assert s[..j + 1] == [s[0]] + s[1..][..j]; j + 1
  }
}
