/**
 * The task data model shared by the command handlers: the three task
 * variants, the exceptions the handlers raise, the ordered task list that
 * they change in place, and the store that is told about every change.
 * `Task`, `Todo`, `Deadline`, `TaskList`, `Storage` and the exception classes
 * are not part of this model; they appear here only as far as the handlers
 * use them.
 */
module Tasks {
  import opened Wrappers
  import opened JavaInt

  /** A parsed `LocalDateTime`; its calendar rules are not modelled. */
  datatype DateTime = DateTime(year: int, month: int, day: int, hour: int, minute: int)

  /** The variant of a task; dated variants keep the text as typed next to the parsed value. */
  datatype Kind =
    | TodoKind
    | DeadlineKind(byText: string, byTime: DateTime)
    | EventKind(fromText: string, toText: string, fromTime: DateTime, toTime: DateTime)

  datatype Task = Task(description: string, done: bool, tag: Option<string>, kind: Kind)

  /** The exceptions a handler can raise or catch. */
  datatype Failure =
    | DukeException(message: string)
    | TaskNotExistException(index: int)
    | ArrayIndexOutOfBounds
    | IndexOutOfBounds(index: int)
    | NumberFormatException(text: string)
    | DateTimeParseException(message: string)

  /**
   * What a handler hands back: a message it composed, the message of an
   * exception it caught (`getMessage()` of a class not modelled here), or an
   * exception it let escape.
   */
  datatype Reply = Returned(text: string) | ReturnedMessageOf(failure: Failure) | Threw(failure: Failure)

  /**
   * The collaborators whose code is not part of this model: the shared
   * `Task.toString` (`taskText`), the `toString` overrides of todos and
   * deadlines (`variantText`), the event date pattern `"MMM dd yyyy HHmm"`
   * (`format`), and `Task.parseDateTime`, whose error carries the
   * exception's message.
   */
  datatype Env = Env(
    taskText: Task -> string,
    variantText: Task -> string,
    format: DateTime -> string,
    parseDateTime: string -> Result<DateTime, string>)

  const TodoEmptyMessage := " Nuh uh! The description of a todo cannot be empty."
  const DeadlineEmptyMessage := " Nuh uh! The description of a deadline cannot be empty.\nMake sure to add a deadline after the description with /by too!"
  const EventEmptyMessage := " Nuh uh! The description of an event cannot be empty.\nMake sure to add a from and to date after the description with /from and /to too!"
  const DeleteWhichMessage := " Nuh uh! Which task to delete? \nMake sure to add the task number!"

  /** `new Todo(description)` or `new Todo(description, tag)`. */
  function NewTodo(description: string, tag: Option<string>): Task {
    Task(description, false, tag, TodoKind)
  }

  /**
   * `new Deadline(description, by)` or `new Deadline(description, by, tag)`:
   * the due text is parsed, and a text that does not parse produces no task.
   */
  function NewDeadline(description: string, byText: string, tag: Option<string>,
                       parse: string -> Result<DateTime, string>): (r: Result<Task, Failure>)
    ensures r.Ok? <==> parse(byText).Ok?
    ensures r.Err? ==> r.error == DateTimeParseException(parse(byText).error)
    ensures r.Ok? ==> r.value.kind == DeadlineKind(byText, parse(byText).value)
    ensures r.Ok? ==> r.value.description == description && r.value.tag == tag && !r.value.done
  {
    match parse(byText)
    case Err(m) => Err(DateTimeParseException(m))
    case Ok(due) => Ok(Task(description, false, tag, DeadlineKind(byText, due)))
  }

  /** `Integer.valueOf(arguments[1])`: the second argument read as an `int`. */
  function IndexArgument(args: seq<string>): (r: Result<int, Failure>)
    ensures |args| < 2 ==> r == Err(ArrayIndexOutOfBounds)
    ensures r.Ok? ==> MinInt <= r.value <= MaxInt
  {
    if |args| < 2 then Err(ArrayIndexOutOfBounds)
    else
      match ParseInt(args[1])
      case None => Err(NumberFormatException(args[1]))
      case Some(v) => Ok(v)
  }

  /** A task number written by `Integer.toString` is read back as that number. */
  lemma {:induction false} IndexArgumentOfNumber(args: seq<string>, n: nat)
    requires |args| >= 2 && args[1] == NatToString(n) && n <= MaxInt
    ensures IndexArgument(args) == Ok(n)
  {
    ParseNatToString(n);
  }

  /** The list after `remove(i)`: element `i` is gone and the later elements move down by one. */
  function RemoveAt(ts: seq<Task>, i: nat): (r: seq<Task>)
    requires i < |ts|
    ensures |r| == |ts| - 1
    ensures forall j :: 0 <= j < i ==> r[j] == ts[j]
    ensures forall j :: i <= j < |r| ==> r[j] == ts[j + 1]
  {
    ts[..i] + ts[i + 1..]
  }

  /** Removing a task loses exactly that one task. */
  lemma RemoveAtLosesOne(ts: seq<Task>, i: nat)
    requires i < |ts|
    ensures multiset(RemoveAt(ts, i)) + multiset{ts[i]} == multiset(ts)
  {
    assert ts == ts[..i] + [ts[i]] + ts[i + 1..];
  }

  /** The list after `markAsDone` (`done`) or `markAsUndone` on task `i`. */
  function WithDone(ts: seq<Task>, i: nat, done: bool): (r: seq<Task>)
    requires i < |ts|
    ensures |r| == |ts|
    ensures r[i] == Task(ts[i].description, done, ts[i].tag, ts[i].kind)
    ensures forall j :: 0 <= j < |ts| && j != i ==> r[j] == ts[j]
  {
    ts[i := ts[i].(done := done)]
  }

  /** Marking then unmarking a task leaves it undone, which restores it exactly when it was undone. */
  lemma MarkThenUnmark(ts: seq<Task>, i: nat)
    requires i < |ts|
    ensures WithDone(WithDone(ts, i, true), i, false) == WithDone(ts, i, false)
    ensures WithDone(WithDone(ts, i, true), i, false) == ts <==> !ts[i].done
  {
    if WithDone(WithDone(ts, i, true), i, false) == ts {
      assert ts[i].done == WithDone(WithDone(ts, i, true), i, false)[i].done;
    }
  }

  /** The ordered task list (`TaskList`), changed in place by the handlers. */
  class TaskList {
    var tasks: seq<Task>

    constructor ()
      ensures tasks == []
    {
      tasks := [];
    }

    /** `add`: appends at the end. */
    method Add(t: Task)
      modifies this
      ensures tasks == old(tasks) + [t]
    {
      tasks := tasks + [t];
    }

    /** `get`: an index outside the list raises `IndexOutOfBoundsException`. */
    method Get(i: int) returns (r: Result<Task, Failure>)
      ensures r.Ok? <==> 0 <= i < |tasks|
      ensures r.Ok? ==> r.value == tasks[i]
      ensures r.Err? ==> r.error == IndexOutOfBounds(i)
    {
      if 0 <= i < |tasks| {
        r := Ok(tasks[i]);
      } else {
        r := Err(IndexOutOfBounds(i));
      }
    }

    /** `remove` at an index that a `get` has just accepted. */
    method Remove(i: int)
      requires 0 <= i < |tasks|
      modifies this
      ensures tasks == RemoveAt(old(tasks), i)
    {
      tasks := tasks[..i] + tasks[i + 1..];
    }

    /** `get(i).markAsDone()` or `get(i).markAsUndone()`. */
    method SetDone(i: int, done: bool)
      requires 0 <= i < |tasks|
      modifies this
      ensures tasks == WithDone(old(tasks), i, done)
    {
      tasks := tasks[i := tasks[i].(done := done)];
    }
  }

  /**
   * The persistence store, seen only through `updateRecords`: it records
   * every collection it was handed, in order; writing the file is not
   * modelled.
   */
  class Storage {
    var updates: seq<seq<Task>>

    constructor ()
      ensures updates == []
    {
      updates := [];
    }

    /** `updateRecords(list)`: the whole current collection is handed over. */
    method UpdateRecords(list: TaskList)
      modifies this
      ensures updates == old(updates) + [list.tasks]
    {
      updates := updates + [list.tasks];
    }
  }
}
