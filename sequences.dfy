/**
 * Facts about sequences used by the task list: order-preserving
 * subsequences, and the duplicate-free, insertion-ordered sequences that
 * hold an item's tags.
 */
module Sequences {

  /** `a` can be obtained from `b` by deleting elements, keeping order. */
  predicate IsSubsequence<T(==)>(a: seq<T>, b: seq<T>)
    decreases |b|
  {
    if a == [] then true
    else if b == [] then false
    else if a[0] == b[0] then IsSubsequence(a[1..], b[1..])
    else IsSubsequence(a, b[1..])
  }

  predicate NoDuplicates<T(==)>(s: seq<T>) {
    forall i, j :: 0 <= i < j < |s| ==> s[i] != s[j]
  }

  /** The position of the first occurrence of `x` in `s`. */
  function FirstIndex<T(==)>(s: seq<T>, x: T): (k: nat)
    requires x in s
    ensures k < |s| && s[k] == x && x !in s[..k]
  {
    if s[0] == x then 0
    else
      assert x in s[1..];
      var k := 1 + FirstIndex(s[1..], x);
      assert s[..k] == [s[0]] + s[1..][..k - 1];
      k
  }

  /** The first occurrence is the only position with no earlier `x`. */
  lemma FirstIndexUnique<T>(s: seq<T>, x: T, j: nat)
    requires j < |s| && s[j] == x && x !in s[..j]
    ensures FirstIndex(s, x) == j
  {
  }

  /** `s` with its first occurrence of `x` removed. */
  function RemoveFirst<T(==)>(s: seq<T>, x: T): seq<T>
    requires x in s
  {
    var k := FirstIndex(s, x);
    s[..k] + s[k + 1..]
  }

  /** Removing the first occurrence drops exactly one copy of `x`, keeps
      the rest in order, and on a duplicate-free sequence leaves a
      duplicate-free sequence without `x`. */
  lemma RemoveFirstSpec<T>(s: seq<T>, x: T)
    requires x in s
    ensures |RemoveFirst(s, x)| == |s| - 1
    ensures multiset(RemoveFirst(s, x)) == multiset(s) - multiset{x}
    ensures IsSubsequence(RemoveFirst(s, x), s)
    ensures NoDuplicates(s) ==> NoDuplicates(RemoveFirst(s, x)) && x !in RemoveFirst(s, x)
  {
    var k := FirstIndex(s, x);
    assert s == s[..k] + [x] + s[k + 1..];
    SkipOneIsSubsequence(s, k);
    if NoDuplicates(s) {
      SkipOneKeepsNoDuplicates(s, k);
    }
  }

  /** Deleting position k from a duplicate-free sequence leaves a
      duplicate-free sequence without the deleted element. */
  lemma SkipOneKeepsNoDuplicates<T>(s: seq<T>, k: nat)
    requires k < |s| && NoDuplicates(s)
    ensures NoDuplicates(s[..k] + s[k + 1..]) && s[k] !in s[..k] + s[k + 1..]
  {
    var r := s[..k] + s[k + 1..];
    forall i | 0 <= i < |r| ensures r[i] == s[if i < k then i else i + 1] {
    }
  }

  /** Deleting position k from a sequence leaves a subsequence of it. */
  lemma {:induction false} SkipOneIsSubsequence<T>(s: seq<T>, k: nat)
    requires k < |s|
    ensures IsSubsequence(s[..k] + s[k + 1..], s)
  {
    var r := s[..k] + s[k + 1..];
    if k == 0 {
      assert r == s[1..];
      DropFirstIsSubsequence(s);
    } else {
      assert r[0] == s[0];
      assert r[1..] == s[1..][..k - 1] + s[1..][k..];
      SkipOneIsSubsequence(s[1..], k - 1);
    }
  }

  /** Dropping the head leaves a subsequence. */
  lemma {:induction false} DropFirstIsSubsequence<T>(s: seq<T>)
    requires |s| > 0
    ensures IsSubsequence(s[1..], s)
  {
    SelfIsSubsequence(s[1..]);
    ExtendRight(s[1..], s[1..], s[0]);
  }

  lemma {:induction false} SelfIsSubsequence<T>(s: seq<T>)
    ensures IsSubsequence(s, s)
  {
    if s != [] {
      SelfIsSubsequence(s[1..]);
    }
  }

  /** A subsequence of `b` is a subsequence of `[y] + b`. */
  lemma {:induction false} ExtendRight<T>(a: seq<T>, b: seq<T>, y: T)
    requires IsSubsequence(a, b)
    ensures IsSubsequence(a, [y] + b)
    decreases |b|, 1
  {
    assert ([y] + b)[1..] == b;
    if a != [] && a[0] == y {
      SubsequenceTail(a, b);
    }
  }

  /** Dropping the head of a non-empty subsequence keeps it a subsequence. */
  lemma {:induction false} SubsequenceTail<T>(a: seq<T>, b: seq<T>)
    requires a != [] && IsSubsequence(a, b)
    ensures IsSubsequence(a[1..], b)
    decreases |b|, 0
  {
    assert [b[0]] + b[1..] == b;
    if a[0] != b[0] {
      SubsequenceTail(a, b[1..]);
    }
    ExtendRight(a[1..], b[1..], b[0]);
  }

  /** If `p` and `d` together hold the elements of `rest`, then adding `x`
      to either of them gives the elements of `[x] + rest`. */
  lemma ConsJoinsEitherSide<T>(x: T, p: seq<T>, d: seq<T>, rest: seq<T>)
    requires multiset(p) + multiset(d) == multiset(rest)
    ensures multiset([x] + p) + multiset(d) == multiset([x] + rest)
    ensures multiset(p) + multiset([x] + d) == multiset([x] + rest)
  {
  }

  /** Appending an element not yet present keeps a sequence duplicate-free. */
  lemma AppendFreshKeepsNoDuplicates<T>(s: seq<T>, x: T)
    requires NoDuplicates(s) && x !in s
    ensures NoDuplicates(s + [x])
  {
    var r := s + [x];
    forall i, j | 0 <= i < j < |r| ensures r[i] != r[j] {
      if j == |s| {
        assert r[i] == s[i];
      }
    }
  }
}
