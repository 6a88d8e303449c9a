/**
 * The task list: an ordered, mutable sequence of tasks addressed by
 * zero-based position. Mutators report failure through an `Outcome` and
 * leave the list unchanged when they fail; queries never change it.
 */
module TodoList {
  import Text
  import opened Priorities
  import opened Items
  import opened Sequences

  datatype Error = IndexOutOfRange | AlreadyExists | EmptyText | TagExists | TagNotFound

  /** The message each error carries. */
  function Message(e: Error): string {
    match e
    case IndexOutOfRange => "Item index out of Range"
    case AlreadyExists => "Item already exists in the list"
    case EmptyText => "Task text cannot be empty"
    case TagExists => "Tag already exists"
    case TagNotFound => "Tag not found"
  }

  datatype Outcome = Success | Failure(error: Error)

  /** Counts derived from a list on demand. */
  datatype Stats = Stats(total: nat, completed: nat, pending: nat)

  /** Some task of `s` has exactly this text. */
  predicate HasText(s: seq<Item>, text: string) {
    exists k :: 0 <= k < |s| && s[k].text == text
  }

  /** No two tasks of `s` share a text. */
  predicate DistinctTexts(s: seq<Item>) {
    forall i, j :: 0 <= i < j < |s| ==> s[i].text != s[j].text
  }

  /** Appending a task whose text is not yet present, as Add does, keeps
      the texts of a list distinct; appending one whose text is present
      would not. */
  lemma AppendKeepsTextsDistinct(s: seq<Item>, it: Item)
    requires DistinctTexts(s)
    ensures DistinctTexts(s + [it]) <==> !HasText(s, it.text)
  {
    var r := s + [it];
    if !HasText(s, it.text) {
      forall i, j | 0 <= i < j < |r| ensures r[i].text != r[j].text {
        if j == |s| {
          assert r[i] == s[i];
        }
      }
    } else {
      var k :| 0 <= k < |s| && s[k].text == it.text;
      assert r[k].text == r[|s|].text;
    }
  }

  /** `s` with the task at `index` replaced by `it`. */
  function Updated(s: seq<Item>, index: nat, it: Item): (r: seq<Item>)
    requires index < |s|
    ensures |r| == |s| && r[index] == it
    ensures forall k :: 0 <= k < |s| && k != index ==> r[k] == s[k]
  {
    s[index := it]
  }

  class List {
    var items: seq<Item>

    /** An empty list. */
    constructor ()
      ensures items == []
    {
      items := [];
    }

    /** Appends a new task with this text, unless a task with the same text
        is already present. */
    method Add(text: string, now: Instant) returns (r: Outcome)
      modifies this
      ensures r.Failure? <==> HasText(old(items), text)
      ensures r.Failure? ==> r.error == AlreadyExists && items == old(items)
      ensures r.Success? ==> items == old(items) + [NewItem(text, now)]
    {
      var item := NewItem(text, now);
      var s := items;
      for i := 0 to |s|
        invariant forall k :: 0 <= k < i ==> s[k].text != text
      {
        if s[i].text == item.text {
          return Failure(AlreadyExists);
        }
      }
      items := s + [item];
      r := Success;
    }

    /** Marks the task at `index` done, then re-partitions the list. */
    method Complete(index: int) returns (r: Outcome)
      modifies this
      ensures !(0 <= index < |old(items)|) ==> r == Failure(IndexOutOfRange) && items == old(items)
      ensures 0 <= index < |old(items)| ==>
        r == Success &&
        items == Partition(Updated(old(items), index, old(items)[index].(done := true)))
      ensures 0 <= index < |old(items)| ==> Partitioned(items)
    {
      if index < 0 || index >= |items| {
        return Failure(IndexOutOfRange);
      }
      items := Updated(items, index, items[index].(done := true));
      Sort();
      r := Success;
    }

    /** Stable re-partition: pending tasks first, completed tasks last,
        each group in its previous order. */
    method Sort()
      modifies this
      ensures items == Partition(old(items))
      ensures Partitioned(items) && multiset(items) == multiset(old(items))
    {
      var s := items;
      var incomplete: seq<Item> := [];
      var completed: seq<Item> := [];
      for i := 0 to |s|
        invariant incomplete == Filter(s[..i], Pending)
        invariant completed == Filter(s[..i], Completed)
      {
        FilterExtend(s, i, Pending);
        FilterExtend(s, i, Completed);
        if s[i].done {
          completed := completed + [s[i]];
        } else {
          incomplete := incomplete + [s[i]];
        }
      }
      assert s[..|s|] == s;
      items := incomplete + completed;
      PartitionIsPartitioned(s);
      PartitionIsPermutation(s);
    }

    /** Removes the task at `index`, shifting later tasks left. */
    method Delete(index: int) returns (r: Outcome)
      modifies this
      ensures !(0 <= index < |old(items)|) ==> r == Failure(IndexOutOfRange) && items == old(items)
      ensures 0 <= index < |old(items)| ==>
        r == Success && items == old(items)[..index] + old(items)[index + 1..]
      ensures 0 <= index < |old(items)| ==>
        |items| == |old(items)| - 1 && IsSubsequence(items, old(items))
    {
      if index < 0 || index >= |items| {
        return Failure(IndexOutOfRange);
      }
      SkipOneIsSubsequence(items, index);
      items := items[..index] + items[index + 1..];
      r := Success;
    }

    /** Replaces the text of the task at `index`. The index is checked
        before the text; uniqueness of texts is not re-checked. */
    method Edit(index: int, newText: string) returns (r: Outcome)
      modifies this
      ensures !(0 <= index < |old(items)|) ==> r == Failure(IndexOutOfRange) && items == old(items)
      ensures 0 <= index < |old(items)| && newText == "" ==>
        r == Failure(EmptyText) && items == old(items)
      ensures 0 <= index < |old(items)| && newText != "" ==>
        r == Success && items == Updated(old(items), index, old(items)[index].(text := newText))
    {
      if index < 0 || index >= |items| {
        return Failure(IndexOutOfRange);
      }
      if newText == "" {
        return Failure(EmptyText);
      }
      items := Updated(items, index, items[index].(text := newText));
      r := Success;
    }

    /** Marks the task at `index` not done, then re-partitions the list. */
    method Uncomplete(index: int) returns (r: Outcome)
      modifies this
      ensures !(0 <= index < |old(items)|) ==> r == Failure(IndexOutOfRange) && items == old(items)
      ensures 0 <= index < |old(items)| ==>
        r == Success &&
        items == Partition(Updated(old(items), index, old(items)[index].(done := false)))
      ensures 0 <= index < |old(items)| ==> Partitioned(items)
    {
      if index < 0 || index >= |items| {
        return Failure(IndexOutOfRange);
      }
      items := Updated(items, index, items[index].(done := false));
      Sort();
      r := Success;
    }

    /** Removes every completed task and returns how many were removed. */
    method ClearCompleted() returns (count: nat)
      modifies this
      ensures items == Filter(old(items), Pending)
      ensures count == |Filter(old(items), Completed)|
      ensures |old(items)| == |items| + count
    {
      var s := items;
      var incomplete: seq<Item> := [];
      count := 0;
      for i := 0 to |s|
        invariant incomplete == Filter(s[..i], Pending)
        invariant count == |Filter(s[..i], Completed)|
      {
        FilterExtend(s, i, Pending);
        FilterExtend(s, i, Completed);
        if !s[i].done {
          incomplete := incomplete + [s[i]];
        } else {
          count := count + 1;
        }
      }
      assert s[..|s|] == s;
      PendingCompletedSplit(s);
      items := incomplete;
    }

    /** Total, completed and pending counts of the list. */
    method GetStats() returns (stats: Stats)
      ensures stats.total == |items|
      ensures stats.completed == |Filter(items, Completed)|
      ensures stats.pending == |Filter(items, Pending)|
      ensures stats.completed + stats.pending == stats.total
    {
      var s := items;
      stats := Stats(|s|, 0, 0);
      for i := 0 to |s|
        invariant stats.total == |s|
        invariant stats.completed == |Filter(s[..i], Completed)|
        invariant stats.pending == |Filter(s[..i], Pending)|
      {
        FilterExtend(s, i, Pending);
        FilterExtend(s, i, Completed);
        if s[i].done {
          stats := stats.(completed := stats.completed + 1);
        } else {
          stats := stats.(pending := stats.pending + 1);
        }
      }
      assert s[..|s|] == s;
      PendingCompletedSplit(s);
    }

    /** Sets the priority of the task at `index`. */
    method SetPriority(index: int, priority: Priority) returns (r: Outcome)
      modifies this
      ensures !(0 <= index < |old(items)|) ==> r == Failure(IndexOutOfRange) && items == old(items)
      ensures 0 <= index < |old(items)| ==>
        r == Success && items == Updated(old(items), index, old(items)[index].(priority := priority))
    {
      if index < 0 || index >= |items| {
        return Failure(IndexOutOfRange);
      }
      items := Updated(items, index, items[index].(priority := priority));
      r := Success;
    }

    /** Sets, or overwrites, the due date of the task at `index`. */
    method SetDueDate(index: int, dueDate: Instant) returns (r: Outcome)
      modifies this
      ensures !(0 <= index < |old(items)|) ==> r == Failure(IndexOutOfRange) && items == old(items)
      ensures 0 <= index < |old(items)| ==>
        r == Success && items == Updated(old(items), index, old(items)[index].(dueDate := Some(dueDate)))
    {
      if index < 0 || index >= |items| {
        return Failure(IndexOutOfRange);
      }
      items := Updated(items, index, items[index].(dueDate := Some(dueDate)));
      r := Success;
    }

    /** Appends `tag` to the tags of the task at `index` unless it is
        already there. */
    method AddTag(index: int, tag: string) returns (r: Outcome)
      modifies this
      ensures !(0 <= index < |old(items)|) ==> r == Failure(IndexOutOfRange) && items == old(items)
      ensures 0 <= index < |old(items)| && tag in old(items)[index].tags ==>
        r == Failure(TagExists) && items == old(items)
      ensures 0 <= index < |old(items)| && tag !in old(items)[index].tags ==>
        r == Success &&
        items == Updated(old(items), index, old(items)[index].(tags := old(items)[index].tags + [tag]))
      ensures 0 <= index < |old(items)| && NoDuplicates(old(items)[index].tags) ==>
        NoDuplicates(items[index].tags)
    {
      if index < 0 || index >= |items| {
        return Failure(IndexOutOfRange);
      }
      var tags := items[index].tags;
      for j := 0 to |tags|
        invariant tag !in tags[..j]
      {
        if tags[j] == tag {
          return Failure(TagExists);
        }
      }
      assert tags[..|tags|] == tags;
      if NoDuplicates(tags) {
        AppendFreshKeepsNoDuplicates(tags, tag);
      }
      items := Updated(items, index, items[index].(tags := tags + [tag]));
      r := Success;
    }

    /** Removes the first occurrence of `tag` from the tags of the task at
        `index`, keeping the other tags in order. */
    method RemoveTag(index: int, tag: string) returns (r: Outcome)
      modifies this
      ensures !(0 <= index < |old(items)|) ==> r == Failure(IndexOutOfRange) && items == old(items)
      ensures 0 <= index < |old(items)| && tag !in old(items)[index].tags ==>
        r == Failure(TagNotFound) && items == old(items)
      ensures 0 <= index < |old(items)| && tag in old(items)[index].tags ==>
        r == Success &&
        items == Updated(old(items), index, old(items)[index].(tags := RemoveFirst(old(items)[index].tags, tag)))
      ensures 0 <= index < |old(items)| && NoDuplicates(old(items)[index].tags) ==>
        NoDuplicates(items[index].tags) && tag !in items[index].tags
    {
      if index < 0 || index >= |items| {
        return Failure(IndexOutOfRange);
      }
      var tags := items[index].tags;
      for j := 0 to |tags|
        invariant tag !in tags[..j]
      {
        if tags[j] == tag {
          FirstIndexUnique(tags, tag, j);
          RemoveFirstSpec(tags, tag);
          items := Updated(items, index, items[index].(tags := tags[..j] + tags[j + 1..]));
          return Success;
        }
      }
      assert tags[..|tags|] == tags;
      r := Failure(TagNotFound);
    }

    /** The tasks whose lower-cased text, or one of whose lower-cased tags,
        contains the lower-cased query, in list order, each once. */
    method Search(query: string) returns (results: seq<Item>)
      ensures results == Filter(items, MatchingQuery(query))
    {
      var q := Text.Lower(query);
      var s := items;
      results := [];
      for i := 0 to |s|
        invariant results == Filter(s[..i], MatchingQuery(query))
      {
        FilterExtend(s, i, MatchingQuery(query));
        var item := s[i];
        if Text.Contains(Text.Lower(item.text), q) {
          results := results + [item];
          continue;
        }
        for j := 0 to |item.tags|
          invariant results == Filter(s[..i], MatchingQuery(query))
          invariant forall k :: 0 <= k < j ==> !Text.Contains(Text.Lower(item.tags[k]), q)
        {
          if Text.Contains(Text.Lower(item.tags[j]), q) {
            results := results + [item];
            break;
          }
        }
      }
      assert s[..|s|] == s;
    }

    /** The tasks with exactly this priority, in list order. */
    method FilterByPriority(priority: Priority) returns (results: seq<Item>)
      ensures results == Filter(items, WithPriority(priority))
    {
      var s := items;
      results := [];
      for i := 0 to |s|
        invariant results == Filter(s[..i], WithPriority(priority))
      {
        FilterExtend(s, i, WithPriority(priority));
        if s[i].priority == priority {
          results := results + [s[i]];
        }
      }
      assert s[..|s|] == s;
    }

    /** The tasks carrying exactly this tag, in list order, each once. */
    method FilterByTag(tag: string) returns (results: seq<Item>)
      ensures results == Filter(items, WithTag(tag))
    {
      var s := items;
      results := [];
      for i := 0 to |s|
        invariant results == Filter(s[..i], WithTag(tag))
      {
        FilterExtend(s, i, WithTag(tag));
        var item := s[i];
        for j := 0 to |item.tags|
          invariant results == Filter(s[..i], WithTag(tag))
          invariant tag !in item.tags[..j]
        {
          if item.tags[j] == tag {
            results := results + [item];
            break;
          }
        }
        assert item.tags[..|item.tags|] == item.tags;
      }
      assert s[..|s|] == s;
    }

    /** The tasks that are not done and whose due date is strictly before
        `now`, in list order. */
    method GetOverdue(now: Instant) returns (results: seq<Item>)
      ensures results == Filter(items, OverdueAt(now))
    {
      var s := items;
      results := [];
      for i := 0 to |s|
        invariant results == Filter(s[..i], OverdueAt(now))
      {
        FilterExtend(s, i, OverdueAt(now));
        var item := s[i];
        if item.dueDate.Some? && item.dueDate.value < now && !item.done {
          results := results + [item];
        }
      }
      assert s[..|s|] == s;
    }
  }
}
