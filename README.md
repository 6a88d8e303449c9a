# Task list core, modelled in Dafny

This project models the in-memory core of a single-user command-line task
manager written in Go (`internal/todo/todo.go`). A `List` is an ordered,
mutable sequence of tasks (`Item`s). Each task has a text, a done flag, a
priority (Low, Medium or High), an optional due date, an ordered set of tags
and a creation time. Tasks are addressed by zero-based position.

The model has these modules:

- `Text` (`text.dfy`): ASCII upper- and lower-casing, and substring
  containment.
- `Priorities` (`priority.dfy`): the `Priority` enumeration, its printed name
  and the lenient parser.
- `Sequences` (`sequences.dfy`): order-preserving subsequences and
  duplicate-free sequences. Tag lists are this kind of sequence.
- `Items` (`item.dfy`): the `Item` record and `NewItem`. Also the selection
  criteria behind every query, and `Filter`, the reference definition of an
  order-preserving selection. Also `Partition`, the pending-first,
  completed-last arrangement that `Sort` produces, with its properties.
- `TodoList` (`list.dfy`): the `List` class. Its field `items: seq<Item>` is
  reassigned by the mutators, which return an `Outcome` (success, or one of
  the source's five errors) and leave the list unchanged on failure. The
  read-only queries are loops proved equal to `Filter` with the matching
  criterion.
- `Scenarios` (`scenarios.dfy`): client methods that drive a `List` through
  the situations the Go test suite checks. They use only the contracts.
  Each follows tests in `internal/todo/todo_test.go`:
  - `CompleteMovesTaskToBottom`: TestCompleteItem (lines 83-104) and the
    in-memory part of TestSaveAndLoad (lines 117-121).
  - `DuplicateAddIsRejected`: TestAddItem (lines 60-81).
  - `TagsStayASet`: TestAddTag and TestRemoveTag (lines 455-539).
  - `DeleteMiddleTask`: TestDeleteItem (lines 157-181).
  - `EditChecksIndexFirst`: TestEditItem (lines 183-207).
  - `PastDueIsOverdue` and `CompletedIsNotOverdue`: TestGetOverdue
    (lines 652-682) and TestGetOverdueWithOverdueDate (lines 743-762).

Time is an integer `Instant` (smaller means earlier). The caller passes the
current time: `Add` takes it as the creation time, and `GetOverdue` takes it
as the reference instant.

`Add` (todo.go:75-85) and `NewItem` (todo.go:55-63) accept any text, the
empty string included; only `Edit` (todo.go:131-133) rejects empty text.

`TodoList.Message` gives the error text each `Error` carries, the strings
returned at todo.go:80, 92, 132, 213 and 232.

## Model

| member | source | states |
|---|---|---|
| `Priorities.ParseInvertsToString` | internal/todo/todo.go:20-44 | parsing the printed name of any level gives back that level |
| `Priorities.ParseInvertsLowerCaseName` | internal/todo/todo.go:20-44 | parsing the lower-cased name of any level also gives back that level |
| `Priorities.ToStringInjective` | internal/todo/todo.go:20-31 | distinct levels print differently |
| `Priorities.ParseIgnoresCase` | internal/todo/todo.go:33-44 | the parser is case-insensitive: an input, its lower-cased form and its upper-cased form parse to the same level |
| `Priorities.ParseDefaultsToMedium` | internal/todo/todo.go:33-44 | the parser is total: any input that is not a High or Low spelling (HIGH, H, LOW, L in any case) yields Medium |
| `Priorities.ParseExamples` | internal/todo/todo_test.go:356-383 | the tested inputs ("high", "h", "medium", "MED", "low", "l", "invalid", "") parse to the expected levels |
| `Text.UpperForgetsCase` | internal/todo/todo.go:34 | upper-casing erases the difference between an input and its lower- or upper-cased form |
| `Text.ContainsIffOccurs` | internal/todo/todo.go:242 | substring containment holds exactly when the needle occurs at some position of the haystack (both directions) |
| `Items.NewItemDefaults` | internal/todo/todo.go:55-63 | a new task is pending, carries no tag, is never overdue, and matches the priority filter for Medium and no other |
| `TodoList.List.constructor` | internal/todo/todo.go:69-73 | a new list is empty |
| `TodoList.List.Add` | internal/todo/todo.go:75-85 | fails with AlreadyExists, changing nothing, exactly when some task has the same text; otherwise appends a new task (not done, Medium, no due date, no tags) and keeps every earlier task |
| `TodoList.AppendKeepsTextsDistinct` | internal/todo/todo.go:75-85 | on a list with distinct texts, appending a task keeps the texts distinct exactly when its text was absent, which is the check Add makes |
| `TodoList.List.Complete` | internal/todo/todo.go:87-99 | an out-of-range index fails and changes nothing; otherwise the task is marked done and the list becomes the partition of the updated list, with no completed task before a pending one |
| `TodoList.List.Sort` | internal/todo/todo.go:101-115 | the new list is the partition of the old one, holds the same tasks, and has no completed task before a pending one |
| `Items.PartitionIsPermutation` | internal/todo/todo.go:102-115 | the partition holds exactly the tasks of its input, each as often |
| `Items.PartitionIsPartitioned` | internal/todo/todo.go:102-115 | in the partition every pending task comes before every completed task |
| `Items.PartitionIsStable` | internal/todo/todo.go:102-115 | the pending tasks and the completed tasks each keep their relative order |
| `Items.PartitionFixesPartitioned` | internal/todo/todo.go:102-115 | a list already in pending-then-completed order is left as it is |
| `Items.PartitionIdempotent` | internal/todo/todo.go:102-115 | sorting twice gives the same list as sorting once |
| `Items.PartitionUnique` | internal/todo/todo.go:102-115 | the partition is the only arrangement in pending-then-completed order whose two groups are those of the input in the same orders |
| `Items.CompleteFirstOfThree` | internal/todo/todo.go:87-115 | completing the first of three pending tasks gives the order second, third, first |
| `TodoList.List.Delete` | internal/todo/todo.go:117-124 | an out-of-range index fails and changes nothing; otherwise exactly the task at the index is removed, the length drops by one and the rest keep their order |
| `Sequences.SkipOneIsSubsequence` | internal/todo/todo.go:122 | removing one position leaves an order-preserving subsequence |
| `TodoList.List.Edit` | internal/todo/todo.go:126-136 | the index is checked before the text; an empty text fails; otherwise only the text of that task changes, and uniqueness is not re-checked |
| `TodoList.List.Uncomplete` | internal/todo/todo.go:138-146 | an out-of-range index fails and changes nothing; otherwise the task is marked not done and the list becomes the partition of the updated list |
| `TodoList.List.ClearCompleted` | internal/todo/todo.go:148-163 | keeps exactly the pending tasks in their order and returns the number of completed tasks, so the old length is the new length plus the count |
| `Items.PendingCompletedSplit` | internal/todo/todo.go:149-185 | the pending and the completed tasks together are the whole list, by content and by count |
| `TodoList.List.GetStats` | internal/todo/todo.go:172-185 | total is the length, completed and pending count the completed and the pending tasks, and completed plus pending equals total |
| `TodoList.List.SetPriority` | internal/todo/todo.go:187-194 | an out-of-range index fails and changes nothing; otherwise only the priority of that task changes |
| `TodoList.List.SetDueDate` | internal/todo/todo.go:196-203 | an out-of-range index fails and changes nothing; otherwise only the due date of that task changes, overwriting any earlier one |
| `TodoList.List.AddTag` | internal/todo/todo.go:205-218 | an out-of-range index fails; a tag already present fails with TagExists and changes nothing; otherwise the tag is appended to that task's tags, which stay duplicate-free if they were |
| `Sequences.AppendFreshKeepsNoDuplicates` | internal/todo/todo.go:210-216 | appending an absent element keeps a sequence duplicate-free |
| `TodoList.List.RemoveTag` | internal/todo/todo.go:220-233 | an out-of-range index fails; a missing tag fails with TagNotFound and changes nothing; otherwise the first occurrence of the tag is removed, and a duplicate-free tag list no longer contains it |
| `Sequences.FirstIndex` | internal/todo/todo.go:226-231 | the index found is an occurrence of the element with no earlier occurrence |
| `Sequences.FirstIndexUnique` | internal/todo/todo.go:226-231 | an occurrence with no earlier occurrence is the first index |
| `Sequences.RemoveFirstSpec` | internal/todo/todo.go:225-232 | removing the first occurrence drops exactly one copy, keeps the others in order, and keeps a duplicate-free sequence duplicate-free without the element |
| `TodoList.List.Search` | internal/todo/todo.go:235-257 | returns the tasks whose lower-cased text or some lower-cased tag contains the lower-cased query, in list order, each once, and changes nothing |
| `Items.EmptyQueryMatchesAll` | internal/todo/todo.go:236-257 | searching for the empty string returns the whole list |
| `TodoList.List.FilterByPriority` | internal/todo/todo.go:259-268 | returns the tasks whose priority equals the argument, in list order, and changes nothing |
| `TodoList.List.FilterByTag` | internal/todo/todo.go:270-282 | returns the tasks whose tags contain the argument exactly, in list order, each once, and changes nothing |
| `TodoList.List.GetOverdue` | internal/todo/todo.go:284-296 | returns the tasks that have a due date strictly before the given instant and are not done, in list order, and changes nothing |
| `Items.Filter` | internal/todo/todo.go:236-296 | a selection is never longer than its input and holds only tasks that satisfy the criterion |
| `Items.FilterCounts` | internal/todo/todo.go:236-296 | a selection holds each satisfying task as often as the input does, and no other task |
| `Items.FilterMembers` | internal/todo/todo.go:236-296 | a task is selected exactly when it is in the input and satisfies the criterion |
| `Items.FilterIsSubsequence` | internal/todo/todo.go:236-296 | a selection keeps the input's order |

## Left out

- `Save` and `Load` (todo.go:344-364) are not modelled. They are file I/O plus JSON encoding by the Go standard library, whose format is not part of this model.
- `List.String` (todo.go:298-342) is not modelled. It is text rendering with emoji and `fmt` formatting, and it reads the wall clock.
- `cmd/todo/main.go` is not part of this model. It is argument parsing, the interactive loop, 1-based to 0-based index conversion, date parsing and printing.
- The wall clock is not modelled. `time.Now()` in `NewItem` and `GetOverdue` becomes a `now` parameter. Dates and times are integers ordered by `<`.
- Case mapping covers ASCII only. Go's `strings.ToUpper` and `strings.ToLower` follow Unicode. For example, Go's `ParsePriority` maps "hıgh" (with a dotless i) to High, but the model maps it to Medium. Search lower-cases text and tags the same ASCII-only way.
- `Priority` is a three-valued datatype. The Go type is an `int`, so `Priority.String` has a "NONE" branch for other values, and `SetPriority` accepts them. The model cannot express those values.
- Slice aliasing is not modelled. `Delete` and `RemoveTag` splice with `append` into the slice's own backing array. `AddTag` may write into a tag array shared with copies of the item returned earlier by a query. In the model every task and tag list is a value.
- The model does not tell a nil slice from an empty one. A `Search` with no hits returns nil, and `ClearCompleted` can leave `Items` nil. The model has `[]` in both cases.
- Go's `int` width is not modelled. Indices, counts and statistics are unbounded integers. A list long enough to overflow them is out of reach in practice.
- `TodoList.List.Complete`: the multiset form of "the list holds the same tasks" is not repeated in this method's contract. It follows from the contract's equation with `Partition` together with `Items.PartitionIsPermutation`.
- `TodoList.List.Uncomplete`: the same as for `Complete`.
