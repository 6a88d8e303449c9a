/**
 * Client code that drives a List through the situations its test suite
 * exercises, using only the methods' contracts.
 */
module Scenarios {
  import opened Priorities
  import opened Items
  import opened Sequences
  import opened TodoList

  /** Completing the first of three tasks moves it to the bottom. */
  method CompleteMovesTaskToBottom(now: Instant) {
    var t1, t2, t3 := NewItem("Task 1", now), NewItem("Task 2", now), NewItem("Task 3", now);
    var list := new List();
    var r := list.Add("Task 1", now);
    assert list.items == [t1];
    r := list.Add("Task 2", now);
    assert r == Success by {
      assert !HasText([t1], "Task 2");
    }
    assert list.items == [t1, t2];
    r := list.Add("Task 3", now);
    assert r == Success by {
      assert !HasText([t1, t2], "Task 3");
    }
    assert list.items == [t1, t2, t3];
    r := list.Complete(0);
    assert r == Success;
    assert list.items == [t2, t3, t1.(done := true)] by {
      assert Updated([t1, t2, t3], 0, t1.(done := true)) == [t1, t2, t3][0 := t1.(done := true)];
      CompleteFirstOfThree(t1, t2, t3);
    }
    r := list.Complete(3);
    assert r == Failure(IndexOutOfRange);
  }

  /** A second task with the same text is rejected and changes nothing. */
  method DuplicateAddIsRejected(now: Instant) {
    var list := new List();
    var r := list.Add("Buy Milk", now);
    assert r == Success && |list.items| == 1;
    assert HasText(list.items, "Buy Milk") by {
      assert list.items[0].text == "Buy Milk";
    }
    r := list.Add("Buy Milk", now);
    assert r == Failure(AlreadyExists) && |list.items| == 1;
  }

  /** A tag can be added once; removing it leaves the others in order. */
  method TagsStayASet(now: Instant) {
    var list := new List();
    var r := list.Add("Task 1", now);
    r := list.AddTag(0, "work");
    assert r == Success;
    r := list.AddTag(0, "urgent");
    r := list.AddTag(0, "work");
    assert r == Failure(TagExists);
    assert list.items[0].tags == ["work", "urgent"];
    r := list.RemoveTag(0, "work");
    assert r == Success;
    assert RemoveFirst(["work", "urgent"], "work") == ["urgent"] by {
      assert FirstIndex(["work", "urgent"], "work") == 0;
    }
    assert list.items[0].tags == ["urgent"];
    r := list.RemoveTag(0, "nonexistent");
    assert r == Failure(TagNotFound);
    r := list.AddTag(-1, "test");
    assert r == Failure(IndexOutOfRange);
  }

  /** Deleting the middle task closes the gap; a bad index is refused. */
  method DeleteMiddleTask(now: Instant) {
    var list := new List();
    var r := list.Add("Task 1", now);
    r := list.Add("Task 2", now);
    r := list.Add("Task 3", now);
    r := list.Delete(1);
    assert r == Success;
    assert list.items == [NewItem("Task 1", now), NewItem("Task 3", now)];
    r := list.Delete(10);
    assert r == Failure(IndexOutOfRange) && |list.items| == 2;
  }

  /** Editing checks the index before the text. */
  method EditChecksIndexFirst(now: Instant) {
    var list := new List();
    var r := list.Add("Original Task", now);
    r := list.Edit(10, "");
    assert r == Failure(IndexOutOfRange);
    r := list.Edit(0, "");
    assert r == Failure(EmptyText);
    r := list.Edit(0, "Updated Task");
    assert r == Success && list.items[0].text == "Updated Task";
  }

  /** A task is overdue when its due date has passed, not before. */
  method PastDueIsOverdue(now: Instant) {
    var a0, b0 := NewItem("Past due", now), NewItem("Future due", now);
    var list := new List();
    var r := list.Add("Past due", now);
    r := list.Add("Future due", now);
    assert r == Success by {
      assert !HasText([a0], "Future due");
    }
    r := list.SetDueDate(0, now - 1);
    r := list.SetDueDate(1, now + 1);
    var a, b := a0.(dueDate := Some(now - 1)), b0.(dueDate := Some(now + 1));
    assert list.items == [a, b];
    var overdue := list.GetOverdue(now);
    assert [a, b][1..] == [b] && [b][1..] == [];
    assert overdue == [a];
  }

  /** A past-due task stops being overdue once it is completed. */
  method CompletedIsNotOverdue(now: Instant) {
    var a := NewItem("Past due but completed", now).(dueDate := Some(now - 1));
    var list := new List();
    var r := list.Add("Past due but completed", now);
    r := list.SetDueDate(0, now - 1);
    assert list.items == [a];
    var overdue := list.GetOverdue(now);
    assert overdue == [a];
    r := list.Complete(0);
    var a' := a.(done := true);
    assert Updated([a], 0, a') == [a'];
    assert list.items == [a'] by {
      assert [a'][1..] == [];
      assert Filter([a'], Pending) == [];
      assert Filter([a'], Completed) == [a'];
    }
    overdue := list.GetOverdue(now);
    assert overdue == [];
  }
}
