/**
 * A task and the selections made over a sequence of tasks: the
 * order-preserving filters behind the queries, and the stable partition
 * into pending-then-completed tasks that completion-state changes restore.
 */
module Items {
  import opened Text
  import opened Priorities
  import opened Sequences

  /** A point in time, totally ordered (earlier is smaller). */
  type Instant = int

  datatype Option<T> = None | Some(value: T)

  /** One task. Values of this type are copied, never shared. */
  datatype Item = Item(
    text: string,
    done: bool,
    priority: Priority,
    dueDate: Option<Instant>,
    tags: seq<string>,
    createdAt: Instant)

  /** A fresh task: not done, Medium priority, no due date, no tags,
      created at `now`. Any text is accepted here. */
  function NewItem(text: string, now: Instant): Item {
    Item(text, false, Medium, None, [], now)
  }

  /** A new task is pending, carries no tag, and is overdue at no time. */
  lemma NewItemDefaults(text: string, now: Instant, later: Instant, tag: string, q: Priority)
    ensures Satisfies(NewItem(text, now), Pending)
    ensures !Satisfies(NewItem(text, now), WithTag(tag))
    ensures !Satisfies(NewItem(text, now), OverdueAt(later))
    ensures Satisfies(NewItem(text, now), WithPriority(q)) <==> q == Medium
  {
  }

  /** The selection conditions the list's queries and its partition use. */
  datatype Criterion =
    | Pending
    | Completed
    | WithPriority(priority: Priority)
    | WithTag(tag: string)
    | MatchingQuery(query: string)
    | OverdueAt(now: Instant)

  /** Some tag of `tags`, lower-cased, contains `needle`. */
  predicate SomeTagContains(tags: seq<string>, needle: string) {
    exists k :: 0 <= k < |tags| && Contains(Lower(tags[k]), needle)
  }

  predicate Satisfies(it: Item, c: Criterion) {
    match c
    case Pending => !it.done
    case Completed => it.done
    case WithPriority(p) => it.priority == p
    case WithTag(t) => t in it.tags
    case MatchingQuery(q) =>
      Contains(Lower(it.text), Lower(q)) || SomeTagContains(it.tags, Lower(q))
    case OverdueAt(now) => it.dueDate.Some? && it.dueDate.value < now && !it.done
  }

  /** The tasks of `s` that satisfy `c`, in the order of `s`. */
  function Filter(s: seq<Item>, c: Criterion): (r: seq<Item>)
    ensures |r| <= |s|
    ensures forall k :: 0 <= k < |r| ==> Satisfies(r[k], c)
  {
    if s == [] then []
    else (if Satisfies(s[0], c) then [s[0]] else []) + Filter(s[1..], c)
  }

  lemma {:induction false} FilterConcat(a: seq<Item>, b: seq<Item>, c: Criterion)
    ensures Filter(a + b, c) == Filter(a, c) + Filter(b, c)
  {
    if a == [] {
      assert a + b == b;
    } else {
      assert (a + b)[1..] == a[1..] + b;
      FilterConcat(a[1..], b, c);
    }
  }

  /** Filtering one more task of `s` extends the filtered prefix by that
      task exactly when it satisfies the criterion. */
  lemma FilterExtend(s: seq<Item>, i: nat, c: Criterion)
    requires i < |s|
    ensures Filter(s[..i + 1], c) == Filter(s[..i], c) + (if Satisfies(s[i], c) then [s[i]] else [])
  {
    assert s[..i + 1] == s[..i] + [s[i]];
    FilterConcat(s[..i], [s[i]], c);
    assert [s[i]][1..] == [];
  }

  /** Filter keeps exactly the satisfying tasks, each as often as it occurs
      in the input. */
  lemma {:induction false} FilterCounts(s: seq<Item>, c: Criterion)
    ensures forall x :: multiset(Filter(s, c))[x] == if Satisfies(x, c) then multiset(s)[x] else 0
  {
    if s != [] {
      var r' := Filter(s[1..], c);
      FilterCounts(s[1..], c);
      assert s == [s[0]] + s[1..];
      if Satisfies(s[0], c) {
        assert Filter(s, c) == [s[0]] + r';
      } else {
        assert Filter(s, c) == r';
      }
    }
  }

  /** A task is selected exactly when it is in the input and satisfies the
      criterion. */
  lemma FilterMembers(s: seq<Item>, c: Criterion)
    ensures forall x :: x in Filter(s, c) <==> x in s && Satisfies(x, c)
  {
    FilterCounts(s, c);
  }

  /** Filter keeps the input's order. */
  lemma {:induction false} FilterIsSubsequence(s: seq<Item>, c: Criterion)
    ensures IsSubsequence(Filter(s, c), s)
  {
    if s != [] {
      var r, r' := Filter(s, c), Filter(s[1..], c);
      FilterIsSubsequence(s[1..], c);
      if Satisfies(s[0], c) {
        assert r == [s[0]] + r' && r[1..] == r';
      } else {
        assert r == r';
        assert r != [] ==> r[0] != s[0];
      }
    }
  }

  lemma {:induction false} FilterKeepsAll(s: seq<Item>, c: Criterion)
    requires forall k :: 0 <= k < |s| ==> Satisfies(s[k], c)
    ensures Filter(s, c) == s
  {
    if s != [] {
      FilterKeepsAll(s[1..], c);
    }
  }

  lemma {:induction false} FilterDropsAll(s: seq<Item>, c: Criterion)
    requires forall k :: 0 <= k < |s| ==> !Satisfies(s[k], c)
    ensures Filter(s, c) == []
  {
    if s != [] {
      FilterDropsAll(s[1..], c);
    }
  }

  /** Every task is either pending or completed: the two filters split the
      sequence, by count and by content. */
  lemma PendingCompletedSplit(s: seq<Item>)
    ensures multiset(Filter(s, Pending)) + multiset(Filter(s, Completed)) == multiset(s)
    ensures |Filter(s, Pending)| + |Filter(s, Completed)| == |s|
  {
    var a, b := multiset(Filter(s, Pending)), multiset(Filter(s, Completed));
    PendingCompletedMultiset(s);
    assert |a + b| == |a| + |b|;
  }

  lemma {:induction false} PendingCompletedMultiset(s: seq<Item>)
    ensures multiset(Filter(s, Pending)) + multiset(Filter(s, Completed)) == multiset(s)
  {
    if s != [] {
      var x := s[0];
      var p, d := Filter(s[1..], Pending), Filter(s[1..], Completed);
      PendingCompletedMultiset(s[1..]);
      assert s == [x] + s[1..];
      ConsJoinsEitherSide(x, p, d, s[1..]);
      if x.done {
        assert Filter(s, Pending) == p && Filter(s, Completed) == [x] + d;
      } else {
        assert Filter(s, Pending) == [x] + p && Filter(s, Completed) == d;
      }
    }
  }

  /** An empty query matches every task. */
  lemma EmptyQueryMatchesAll(s: seq<Item>)
    ensures Filter(s, MatchingQuery("")) == s
  {
    forall k | 0 <= k < |s| ensures Satisfies(s[k], MatchingQuery("")) {
      assert Lower("") == "";
      ContainsEmpty(Lower(s[k].text));
    }
    FilterKeepsAll(s, MatchingQuery(""));
  }

  /** No completed task comes before a pending one. */
  predicate Partitioned(s: seq<Item>) {
    forall i, j :: 0 <= i < j < |s| && s[i].done ==> s[j].done
  }

  /** The pending tasks in their order, then the completed tasks in theirs. */
  function Partition(s: seq<Item>): seq<Item> {
    Filter(s, Pending) + Filter(s, Completed)
  }

  /** The partition holds the same tasks as its input. */
  lemma PartitionIsPermutation(s: seq<Item>)
    ensures multiset(Partition(s)) == multiset(s)
    ensures |Partition(s)| == |s|
  {
    PendingCompletedSplit(s);
  }

  /** The partition puts every pending task before every completed one. */
  lemma PartitionIsPartitioned(s: seq<Item>)
    ensures Partitioned(Partition(s))
  {
    var p, d := Filter(s, Pending), Filter(s, Completed);
    var r := Partition(s);
    forall k | 0 <= k < |p| ensures !r[k].done {
      assert r[k] == p[k] && p[k] in p;
    }
    forall k | |p| <= k < |r| ensures r[k].done {
      assert r[k] == d[k - |p|] && d[k - |p|] in d;
    }
  }

  /** The partition is stable: each group keeps its relative order. */
  lemma PartitionIsStable(s: seq<Item>)
    ensures Filter(Partition(s), Pending) == Filter(s, Pending)
    ensures Filter(Partition(s), Completed) == Filter(s, Completed)
  {
    var p, d := Filter(s, Pending), Filter(s, Completed);
    FilterConcat(p, d, Pending);
    FilterConcat(p, d, Completed);
    assert forall k :: 0 <= k < |p| ==> p[k] in p;
    assert forall k :: 0 <= k < |d| ==> d[k] in d;
    FilterKeepsAll(p, Pending);
    FilterDropsAll(d, Pending);
    FilterDropsAll(p, Completed);
    FilterKeepsAll(d, Completed);
    assert Filter(p + d, Pending) == p + [];
    assert Filter(p + d, Completed) == [] + d;
  }

  /** A sequence that is already partitioned is its own partition. */
  lemma {:induction false} PartitionFixesPartitioned(s: seq<Item>)
    requires Partitioned(s)
    ensures Partition(s) == s
  {
    if s != [] {
      if s[0].done {
        assert forall k :: 0 <= k < |s| ==> s[k].done by {
          forall k | 0 < k < |s| ensures s[k].done {
          }
        }
        FilterDropsAll(s, Pending);
        FilterKeepsAll(s, Completed);
      } else {
        PartitionFixesPartitioned(s[1..]);
      }
    }
  }

  /** Sorting twice is sorting once. */
  lemma PartitionIdempotent(s: seq<Item>)
    ensures Partition(Partition(s)) == Partition(s)
  {
    PartitionIsPartitioned(s);
    PartitionFixesPartitioned(Partition(s));
  }

  /** The partition is the only partitioned arrangement whose pending and
      completed groups are those of the input, in the same orders. */
  lemma PartitionUnique(s: seq<Item>, t: seq<Item>)
    requires Partitioned(t)
    requires Filter(t, Pending) == Filter(s, Pending)
    requires Filter(t, Completed) == Filter(s, Completed)
    ensures t == Partition(s)
  {
    PartitionFixesPartitioned(t);
  }

  /** Completing the first of three pending tasks moves it behind the
      other two, which keep their order. */
  lemma CompleteFirstOfThree(t1: Item, t2: Item, t3: Item)
    requires !t1.done && !t2.done && !t3.done
    ensures Partition([t1, t2, t3][0 := t1.(done := true)]) == [t2, t3, t1.(done := true)]
  {
    var s := [t1.(done := true), t2, t3];
    assert s[1..] == [t2, t3] && s[1..][1..] == [t3] && s[1..][1..][1..] == [];
    assert Filter([t3], Pending) == [t3] && Filter([t3], Completed) == [];
    assert Filter([t2, t3], Pending) == [t2, t3] && Filter([t2, t3], Completed) == [];
    assert Filter(s, Pending) == [t2, t3];
    assert Filter(s, Completed) == [t1.(done := true)];
  }
}
