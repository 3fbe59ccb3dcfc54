/**
 Sequence vocabulary used by the skill matcher model: order-preserving
 deletion (`IsSubsequence`), duplicate-freedom, removal of every copy of a
 value, and filtering by a predicate — the Dafny counterparts of the array
 `filter` and `includes` calls the page is built from.
 */
module Seqs {

  /** `a` is obtained from `b` by deleting elements, keeping the order of the rest. */
  predicate IsSubsequence<T(==)>(a: seq<T>, b: seq<T>)
    decreases |b|
  {
    if |a| == 0 then true
    else if |b| == 0 then false
    else if a[0] == b[0] then IsSubsequence(a[1..], b[1..])
    else IsSubsequence(a, b[1..])
  }

  /** No value occurs twice. */
  predicate NoDuplicates<T(==)>(xs: seq<T>) {
    forall i, j :: 0 <= i < j < |xs| ==> xs[i] != xs[j]
  }

  /** Deletes every element equal to `x`; the rest keep their relative order. */
  function RemoveAll<T(==,!new)>(xs: seq<T>, x: T): (r: seq<T>)
    ensures x !in r
    ensures forall y :: y in r <==> y in xs && y != x
    ensures forall y :: y != x ==> multiset(r)[y] == multiset(xs)[y]
    ensures x !in xs ==> r == xs
  {
    if |xs| == 0 then []
    else
      assert xs == [xs[0]] + xs[1..];
      if xs[0] == x then RemoveAll(xs[1..], x)
      else [xs[0]] + RemoveAll(xs[1..], x)
  }

  /** The elements of `xs` that `keep` accepts, in their original order. */
  function Filter<T(==,!new)>(xs: seq<T>, keep: T -> bool): (r: seq<T>)
    ensures IsSubsequence(r, xs)
    ensures forall y :: y in r <==> y in xs && keep(y)
    ensures forall y :: multiset(r)[y] == if keep(y) then multiset(xs)[y] else 0
    ensures (forall y :: y in xs ==> keep(y)) ==> r == xs
  {
    if |xs| == 0 then []
    else
      assert xs == [xs[0]] + xs[1..];
      if keep(xs[0]) then [xs[0]] + Filter(xs[1..], keep)
      else Filter(xs[1..], keep)
  }

  /** Removal keeps the relative order of the remaining elements. */
  lemma {:induction false} RemoveAllKeepsOrder<T(!new)>(xs: seq<T>, x: T)
    ensures IsSubsequence(RemoveAll(xs, x), xs)
  {
    if |xs| > 0 {
      RemoveAllKeepsOrder(xs[1..], x);
    }
  }

  /** Every element of a subsequence is an element of the whole. */
  lemma {:induction false} SubsequenceMembers<T>(a: seq<T>, b: seq<T>)
    requires IsSubsequence(a, b)
    ensures forall y :: y in a ==> y in b
    decreases |b|
  {
    if |a| == 0 {
    } else if a[0] == b[0] {
      SubsequenceMembers(a[1..], b[1..]);
      assert a == [a[0]] + a[1..];
      assert b == [b[0]] + b[1..];
    } else {
      SubsequenceMembers(a, b[1..]);
      assert b == [b[0]] + b[1..];
    }
  }

  /** The head of a duplicate-free sequence is not in its tail, and the tail is duplicate-free. */
  lemma NoDuplicatesTail<T>(xs: seq<T>)
    requires |xs| > 0 && NoDuplicates(xs)
    ensures xs[0] !in xs[1..] && NoDuplicates(xs[1..])
  {
  }

  /** Prepending a value not already present keeps a sequence duplicate-free. */
  lemma NoDuplicatesCons<T>(x: T, xs: seq<T>)
    requires x !in xs && NoDuplicates(xs)
    ensures NoDuplicates([x] + xs)
  {
    var ys := [x] + xs;
    forall i, j | 0 <= i < j < |ys|
      ensures ys[i] != ys[j]
    {
      if i == 0 {
        assert ys[j] == xs[j - 1];
      } else {
        assert ys[i] == xs[i - 1] && ys[j] == xs[j - 1];
      }
    }
  }

  /** Appending a value not already present keeps a sequence duplicate-free. */
  lemma NoDuplicatesSnoc<T>(xs: seq<T>, x: T)
    requires x !in xs
    ensures NoDuplicates(xs) ==> NoDuplicates(xs + [x])
  {
    var ys := xs + [x];
    forall i, j | NoDuplicates(xs) && 0 <= i < j < |ys|
      ensures ys[i] != ys[j]
    {
      if j == |xs| {
        assert ys[i] == xs[i];
      } else {
        assert ys[i] == xs[i] && ys[j] == xs[j];
      }
    }
  }

  /** Deleting elements cannot create a duplicate. */
  lemma {:induction false} SubsequenceNoDuplicates<T>(a: seq<T>, b: seq<T>)
    requires IsSubsequence(a, b)
    ensures NoDuplicates(b) ==> NoDuplicates(a)
    decreases |b|
  {
    if |a| > 0 && NoDuplicates(b) {
      NoDuplicatesTail(b);
      if a[0] == b[0] {
        SubsequenceNoDuplicates(a[1..], b[1..]);
        SubsequenceMembers(a[1..], b[1..]);
        NoDuplicatesCons(a[0], a[1..]);
        assert a == [a[0]] + a[1..];
      } else {
        SubsequenceNoDuplicates(a, b[1..]);
      }
    }
  }

  /** In a duplicate-free sequence a present value occurs exactly once. */
  lemma {:induction false} NoDuplicatesCount<T>(xs: seq<T>, x: T)
    requires NoDuplicates(xs)
    ensures multiset(xs)[x] == if x in xs then 1 else 0
  {
    if |xs| == 0 {
    } else {
      NoDuplicatesTail(xs);
      NoDuplicatesCount(xs[1..], x);
      assert xs == [xs[0]] + xs[1..];
    }
  }

  /** Removal distributes over concatenation. */
  lemma {:induction false} RemoveAllAppend<T(!new)>(a: seq<T>, b: seq<T>, x: T)
    ensures RemoveAll(a + b, x) == RemoveAll(a, x) + RemoveAll(b, x)
    decreases |a|
  {
    if |a| == 0 {
      assert a + b == b;
    } else {
      var ab := a + b;
      assert ab[0] == a[0];
      assert ab[1..] == a[1..] + b;
      RemoveAllAppend(a[1..], b, x);
      if a[0] != x {
        calc {
          RemoveAll(ab, x);
          [a[0]] + RemoveAll(a[1..] + b, x);
          [a[0]] + (RemoveAll(a[1..], x) + RemoveAll(b, x));
          ([a[0]] + RemoveAll(a[1..], x)) + RemoveAll(b, x);
        }
      }
    }
  }

  /** Removing a value from a duplicate-free sequence shortens it by one exactly when the value is present. */
  lemma {:induction false} RemoveAllLength<T(!new)>(xs: seq<T>, x: T)
    ensures NoDuplicates(xs) ==> |RemoveAll(xs, x)| == if x in xs then |xs| - 1 else |xs|
  {
    if |xs| > 0 && NoDuplicates(xs) {
      NoDuplicatesTail(xs);
      RemoveAllLength(xs[1..], x);
      assert xs == [xs[0]] + xs[1..];
    }
  }

  /**
   Two subsequences of a duplicate-free sequence with the same elements are
   equal: the order is forced by the whole.
   */
  lemma {:induction false} SubsequenceDeterminedByMembers<T>(a: seq<T>, b: seq<T>, xs: seq<T>)
    requires IsSubsequence(a, xs) && IsSubsequence(b, xs) && NoDuplicates(xs)
    requires forall y :: y in a <==> y in b
    ensures a == b
    decreases |xs|
  {
    if |xs| == 0 {
      assert |a| == 0 && |b| == 0;
    } else {
      NoDuplicatesTail(xs);
      var x := xs[0];
      if x in a {
        HeadOfSubsequence(a, xs);
        HeadOfSubsequence(b, xs);
        SubsequenceNoDuplicates(a, xs);
        SubsequenceNoDuplicates(b, xs);
        NoDuplicatesTail(a);
        NoDuplicatesTail(b);
        assert a == [a[0]] + a[1..];
        assert b == [b[0]] + b[1..];
        forall y
          ensures y in a[1..] <==> y in b[1..]
        {
          assert y in a[1..] <==> y in a && y != x;
          assert y in b[1..] <==> y in b && y != x;
        }
        SubsequenceDeterminedByMembers(a[1..], b[1..], xs[1..]);
      } else {
        assert x !in b;
        SkipAbsentHead(a, xs);
        SkipAbsentHead(b, xs);
        SubsequenceDeterminedByMembers(a, b, xs[1..]);
      }
    }
  }

  /** A subsequence of a duplicate-free sequence that holds its head starts with that head. */
  lemma HeadOfSubsequence<T>(a: seq<T>, xs: seq<T>)
    requires IsSubsequence(a, xs) && NoDuplicates(xs) && |xs| > 0 && xs[0] in a
    ensures a[0] == xs[0] && IsSubsequence(a[1..], xs[1..])
  {
    if a[0] != xs[0] {
      NoDuplicatesTail(xs);
      SubsequenceMembers(a, xs[1..]);
      assert false;
    }
  }

  /** A subsequence without the head of the whole is a subsequence of its tail. */
  lemma SkipAbsentHead<T>(a: seq<T>, xs: seq<T>)
    requires IsSubsequence(a, xs) && |xs| > 0 && xs[0] !in a
    ensures IsSubsequence(a, xs[1..])
  {
    if |a| > 0 {
      assert a[0] in a;
    }
  }

  /** A subsequence of a tail is a subsequence of the whole. */
  lemma {:induction false} SubsequenceOfTail<T>(a: seq<T>, c: seq<T>)
    requires |c| > 0 && IsSubsequence(a, c[1..])
    ensures IsSubsequence(a, c)
    decreases |c|, 0
  {
    if |a| > 0 && a[0] == c[0] {
      SubsequenceDropHead(a, c[1..]);
    }
  }

  /** Dropping the first element of a subsequence leaves a subsequence. */
  lemma {:induction false} SubsequenceDropHead<T>(a: seq<T>, d: seq<T>)
    requires |a| > 0 && IsSubsequence(a, d)
    ensures IsSubsequence(a[1..], d)
    decreases |d|, 1
  {
    if a[0] == d[0] {
      SubsequenceOfTail(a[1..], d);
    } else {
      SubsequenceDropHead(a, d[1..]);
      SubsequenceOfTail(a[1..], d);
    }
  }

  /** A subsequence of a subsequence is a subsequence. */
  lemma {:induction false} SubsequenceTransitive<T>(a: seq<T>, b: seq<T>, c: seq<T>)
    requires IsSubsequence(a, b) && IsSubsequence(b, c)
    ensures IsSubsequence(a, c)
    decreases |c|
  {
    if |a| == 0 {
    } else if b[0] == c[0] {
      if a[0] == b[0] {
        SubsequenceTransitive(a[1..], b[1..], c[1..]);
      } else {
        SubsequenceTransitive(a, b[1..], c[1..]);
      }
    } else {
      SubsequenceTransitive(a, b, c[1..]);
      SubsequenceOfTail(a, c);
    }
  }
}
