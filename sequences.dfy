/** Lookups on sequences: the first position of a value, and the absence of repeats. */
module Sequences {
  import opened Wrappers

  /** The first position of `x` in `s` (`Array.prototype.indexOf`, or the first hit of `find`). */
  function IndexOf<T(==)>(s: seq<T>, x: T): (r: Option<nat>)
    ensures r.Some? ==> r.value < |s| && s[r.value] == x && x !in s[..r.value]
    ensures r.None? <==> x !in s
  {
    if s == [] then None
    else if s[0] == x then Some(0)
    else match IndexOf(s[1..], x)
      case None => None
      case Some(i) =>
        assert s[..i + 1] == [s[0]] + s[1..][..i];
        Some(i + 1)
  }

  predicate NoDup<T(==)>(s: seq<T>)
  {
    forall i, j :: 0 <= i < j < |s| ==> s[i] != s[j]
  }

  /** In a sequence without repeats the first position of an element is its only one. */
  lemma IndexOfUnique<T>(s: seq<T>, j: nat)
    requires NoDup(s) && j < |s|
    ensures IndexOf(s, s[j]) == Some(j)
  {
  }

  /** The first occurrence is at `n` when `x` sits at `n` and not before it. */
  lemma {:induction false} IndexOfAt<T>(s: seq<T>, x: T, n: nat)
    requires n < |s| && s[n] == x && x !in s[..n]
    ensures IndexOf(s, x) == Some(n)
  {
    if n > 0 {
      assert s[0] in s[..n];
      assert s[1..][..n - 1] == s[1..n];
      assert forall y :: y in s[1..n] ==> y in s[..n];
      IndexOfAt(s[1..], x, n - 1);
    }
  }

  /** The elements of a non-empty sequence are those before its last one and the last one. */
  lemma InSnoc<T>(s: seq<T>)
    requires s != []
    ensures forall x :: x in s <==> x in s[..|s| - 1] || x == s[|s| - 1]
  {
    assert s == s[..|s| - 1] + [s[|s| - 1]];
  }

  /** Looking up in a sequence with one element appended. */
  lemma IndexOfAppend<T>(s: seq<T>, y: T, x: T)
    ensures IndexOf(s + [y], x) == if x in s then IndexOf(s, x) else if x == y then Some(|s|) else None
  {
    var r := IndexOf(s + [y], x);
    if x in s {
      var i := IndexOf(s, x).value;
      assert (s + [y])[..i] == s[..i];
    } else if x == y {
      assert (s + [y])[..|s|] == s;
    }
  }
}
