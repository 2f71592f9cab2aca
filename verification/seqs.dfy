/**
 * The list operations of `java.util.List` that the engine relies on, stated over
 * Dafny sequences: removal of the first equal element (`remove(Object)`),
 * removal of every matching element (`removeIf`), and repeated removal.
 */
module Seqs {

  /** Position of the first occurrence of `x`, or `|s|` when `x` does not occur. */
  function IndexOf<T(==)>(s: seq<T>, x: T): (i: nat)
    ensures i <= |s|
    ensures i < |s| ==> s[i] == x
    ensures forall j :: 0 <= j < i ==> s[j] != x
    ensures i == |s| <==> x !in s
  {
    if s == [] then 0
    else if s[0] == x then 0
    else 1 + IndexOf(s[1..], x)
  }

  /** `List.remove(x)`: drops the first occurrence of `x` and keeps the order of the rest. */
  function RemoveFirst<T(==)>(s: seq<T>, x: T): (r: seq<T>)
    ensures x !in s ==> r == s
    ensures x in s ==> |r| == |s| - 1
    ensures x in s ==> r[..IndexOf(s, x)] == s[..IndexOf(s, x)]
    ensures x in s ==> r[IndexOf(s, x)..] == s[IndexOf(s, x) + 1..]
    ensures multiset(r) == multiset(s) - multiset{x}
  {
    var i := IndexOf(s, x);
    if i == |s| then s
    else
      assert s == s[..i] + [s[i]] + s[i + 1..];
      s[..i] + s[i + 1..]
  }

  /** `removeIf(e -> e == x)`: drops every occurrence of `x`. */
  function RemoveAll<T(==)>(s: seq<T>, x: T): (r: seq<T>)
    ensures x !in r
    ensures multiset(r) == multiset(s)[x := 0]
    ensures |r| <= |s|
  {
    if s == [] then []
    else
      assert s == [s[0]] + s[1..];
      assert multiset(s) == multiset{s[0]} + multiset(s[1..]);
      if s[0] == x then RemoveAll(s[1..], x)
      else [s[0]] + RemoveAll(s[1..], x)
  }

  /** Removes the elements of `xs` one after another, each with `RemoveFirst`. */
  function RemoveEach<T(==)>(s: seq<T>, xs: seq<T>): (r: seq<T>)
    ensures multiset(xs) <= multiset(s) ==> multiset(r) == multiset(s) - multiset(xs)
  {
    if xs == [] then s
    else
      assert xs == [xs[0]] + xs[1..];
      RemoveEach(RemoveFirst(s, xs[0]), xs[1..])
  }

  /** A `List.remove` immediately after an `add` of an absent element undoes the `add`. */
  lemma {:induction false} RemoveFirstAfterAppend<T>(s: seq<T>, x: T)
    requires x !in s
    ensures RemoveFirst(s + [x], x) == s
  {
    assert (s + [x])[..|s|] == s;
  }

  /** A prefix of a prefix is a prefix. */
  lemma PrefixTransitive<T>(a: seq<T>, b: seq<T>, c: seq<T>)
    requires a <= b && b <= c
    ensures a <= c
  {
    assert b == c[..|b|];
    assert a == c[..|b|][..|a|];
  }
}
