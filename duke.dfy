/**
 * The command-line front end (`duke.Duke`): the command keyword is looked up
 * in the `Command` enumeration, and `processCommand` changes the task list
 * according to the command found.
 */
module Duke {
  import opened Wrappers
  import opened JavaText
  import opened JavaInt
  import opened Tasks
  import ModelEvent
  import TaskManager

  /** The constants of `Duke.Command`, declared in mixed case. */
  datatype Command = Todo | Deadline | Event | Delete | Mark | Unmark | List | Bye | Unknown

  /** `Command.name()`: the constant's name as declared. */
  function Name(c: Command): string {
    match c
    case Todo => "Todo"
    case Deadline => "Deadline"
    case Event => "Event"
    case Delete => "Delete"
    case Mark => "Mark"
    case Unmark => "Unmark"
    case List => "List"
    case Bye => "Bye"
    case Unknown => "Unknown"
  }

  /** `Command.valueOf`: the constant whose declared name is exactly `name`; `None` where Java throws. */
  function ValueOf(name: string): (r: Option<Command>)
    ensures r.Some? ==> Name(r.value) == name
    ensures r.None? <==> forall c: Command :: Name(c) != name
  {
    if name == "Todo" then Some(Todo)
    else if name == "Deadline" then Some(Deadline)
    else if name == "Event" then Some(Event)
    else if name == "Delete" then Some(Delete)
    else if name == "Mark" then Some(Mark)
    else if name == "Unmark" then Some(Unmark)
    else if name == "List" then Some(List)
    else if name == "Bye" then Some(Bye)
    else if name == "Unknown" then Some(Unknown)
    else None
  }

  /**
   * `Command.fromString` as written: the upper-cased input is looked up, and
   * a miss is `Unknown`; any other command found carries the upper-cased
   * input as its declared name.
   */
  function FromString(maybeCommand: string): (c: Command)
    ensures c != Unknown ==> Name(c) == ToUpper(maybeCommand)
  {
    match ValueOf(ToUpper(maybeCommand))
    case Some(c) => c
    case None => Unknown
  }

  /**
   * Every declared name has a lower-case letter in its second place, which
   * no upper-cased text has; so the lookup never succeeds and every input,
   * `"todo"` and `"Todo"` included, is `Unknown`.
   */
  lemma FromStringIsAlwaysUnknown(maybeCommand: string)
    ensures ValueOf(ToUpper(maybeCommand)).None?
    ensures FromString(maybeCommand) == Unknown
  {
    var u := ToUpper(maybeCommand);
    forall c: Command ensures Name(c) != u {
      var n := Name(c);
      assert |n| >= 2 && 'a' <= n[1] <= 'z';
      if |u| >= 2 {
        assert u[1] != n[1];
      }
    }
  }

  /** The upper-case spelling of each constant, as in the commented-out declaration. */
  function UpperName(c: Command): string {
    match c
    case Todo => "TODO"
    case Deadline => "DEADLINE"
    case Event => "EVENT"
    case Delete => "DELETE"
    case Mark => "MARK"
    case Unmark => "UNMARK"
    case List => "LIST"
    case Bye => "BYE"
    case Unknown => "UNKNOWN"
  }

  /** The lookup evidently intended: the upper-cased input against the upper-case spellings. */
  function FromStringIntended(maybeCommand: string): Command {
    var u := ToUpper(maybeCommand);
    if u == "TODO" then Todo
    else if u == "DEADLINE" then Deadline
    else if u == "EVENT" then Event
    else if u == "DELETE" then Delete
    else if u == "MARK" then Mark
    else if u == "UNMARK" then Unmark
    else if u == "LIST" then List
    else if u == "BYE" then Bye
    else Unknown
  }

  /**
   * The intended lookup finds a command exactly when the input upper-cases
   * to its spelling; in particular the declared name itself is found.
   */
  lemma FromStringIntendedFinds(maybeCommand: string, c: Command)
    requires c != Unknown
    ensures FromStringIntended(maybeCommand) == c <==> ToUpper(maybeCommand) == UpperName(c)
    ensures FromStringIntended(Name(c)) == c
  {
    var n := Name(c);
    var u := ToUpper(n);
    forall i | 0 <= i < |u| ensures u[i] == UpperName(c)[i] {
      assert u[i] == UpperChar(n[i]);
    }
    assert u == UpperName(c);
  }

  /** What `processCommand` leads to: it returns, the program exits, or an exception escapes. */
  datatype Outcome = Completed | Exits | Raised(failure: Failure)

  /** The todo description (lines 99-106): the whole rest of the input, tags included. */
  function TodoArgument(arr: seq<string>): (r: Result<string, Failure>)
    ensures |arr| >= 2 ==> r == Ok(arr[1])
    ensures |arr| == 1 <==> r == Err(DukeException(TodoEmptyMessage))
  {
    if |arr| == 1 then Err(DukeException(TodoEmptyMessage))
    else if |arr| == 0 then Err(ArrayIndexOutOfBounds)
    else Ok(arr[1])
  }

  /** The deadline description and due text (lines 116-125). */
  function DeadlineArguments(arr: seq<string>): (r: Result<(string, string), Failure>)
    ensures |arr| == 1 <==> r == Err(DukeException(DeadlineEmptyMessage))
    ensures r.Ok? ==> !Contains(r.value.0, TaskManager.ByDelimiter) && !Contains(r.value.1, TaskManager.ByDelimiter)
  {
    if |arr| == 1 then Err(DukeException(DeadlineEmptyMessage))
    else if |arr| == 0 then Err(ArrayIndexOutOfBounds)
    else
      var arguments := Split(arr[1], TaskManager.ByDelimiter);
      if |arguments| < 2 then Err(ArrayIndexOutOfBounds)
      else Ok((arguments[0], arguments[1]))
  }

  /**
   * The front end's deadline fields: the description is the text before the
   * first `" /by "` and the due text runs to the next one; without `" /by "`
   * the branch fails on a missing slot.
   */
  lemma {:induction false} DeadlineArgumentsMeaning(arr: seq<string>)
    requires |arr| >= 2
    ensures !Contains(arr[1], TaskManager.ByDelimiter) ==> DeadlineArguments(arr) == Err(ArrayIndexOutOfBounds)
    ensures DeadlineArguments(arr).Ok? ==>
      && Contains(arr[1], TaskManager.ByDelimiter)
      && DeadlineArguments(arr).value.0 == Before(arr[1], TaskManager.ByDelimiter)
      && DeadlineArguments(arr).value.1 == TaskManager.Second(arr[1], TaskManager.ByDelimiter)
  {
    if |Split(arr[1], TaskManager.ByDelimiter)| >= 2 {
      SplitSecond(arr[1], TaskManager.ByDelimiter);
    }
  }

  /**
   * Without any `" /tag "` in the input, the front end and the intended
   * deadline handler cut the same description and due text.
   */
  lemma {:induction false} DeadlineArgumentsAgree(arr: seq<string>)
    requires |arr| >= 2 && !Contains(arr[1], TaskManager.TagDelimiter)
    ensures DeadlineArguments(arr).Ok? <==> TaskManager.DeadlineFieldsIntended(arr).Ok?
    ensures DeadlineArguments(arr).Ok? ==>
      TaskManager.DeadlineFieldsIntended(arr)
        == Ok((DeadlineArguments(arr).value.0, DeadlineArguments(arr).value.1, None))
  {
    var arguments := Split(arr[1], TaskManager.ByDelimiter);
    if |arguments| >= 2 {
      SplitAvoids(arr[1], TaskManager.ByDelimiter, TaskManager.TagDelimiter, 1);
    }
  }

  /** The event description, start and end (lines 136-148). */
  function EventArguments(arr: seq<string>): (r: Result<(string, string, string), Failure>)
    ensures r.Ok? ==> |arr| >= 2 && |arr| != 4
    ensures r.Ok? ==> !Contains(r.value.0, TaskManager.FromDelimiter) && !Contains(r.value.1, TaskManager.ToDelimiter)
  {
    if |arr| == 4 then Err(DukeException(EventEmptyMessage))
    else if |arr| < 2 then Err(ArrayIndexOutOfBounds)
    else
      var getDesc := Split(arr[1], TaskManager.FromDelimiter);
      if |getDesc| < 2 then Err(ArrayIndexOutOfBounds)
      else
        var getDates := Split(getDesc[1], TaskManager.ToDelimiter);
        if |getDates| < 2 then Err(ArrayIndexOutOfBounds)
        else Ok((getDesc[0], getDates[0], getDates[1]))
  }

  /**
   * The four-argument guard of the event branch never fires: the input is
   * cut at its first space into at most two pieces.
   */
  lemma EventGuardIsDead(userInput: string)
    ensures EventArguments(SplitOnce(userInput, " ")) != Err(DukeException(EventEmptyMessage))
  {
  }

  /**
   * Without any `" /tag "` in the input, the front end and the event
   * handler cut the same description, start and end, and find no tag.
   */
  lemma {:induction false} EventArgumentsAgree(arr: seq<string>)
    requires |arr| >= 2 && !Contains(arr[1], TaskManager.TagDelimiter)
    ensures EventArguments(arr).Ok? <==> TaskManager.EventFields(arr).Ok?
    ensures EventArguments(arr).Ok? ==>
      var (desc, from, to) := EventArguments(arr).value;
      TaskManager.EventFields(arr) == Ok((desc, from, to, None))
  {
    var tag := TaskManager.TagDelimiter;
    var getDesc := Split(arr[1], TaskManager.FromDelimiter);
    if |arr| != 4 && |getDesc| >= 2 {
      SplitAvoids(arr[1], TaskManager.FromDelimiter, tag, 1);
      var getDates := Split(getDesc[1], TaskManager.ToDelimiter);
      if |getDates| >= 2 {
        SplitAvoids(getDesc[1], TaskManager.ToDelimiter, tag, 1);
      }
    }
  }

  /** The task number of a delete (lines 162-168). */
  function DeleteArgument(arr: seq<string>): (r: Result<int, Failure>)
    ensures |arr| == 1 <==> r == Err(DukeException(DeleteWhichMessage))
    ensures |arr| >= 2 ==> r == IndexArgument(arr)
  {
    if |arr| == 1 then Err(DukeException(DeleteWhichMessage)) else IndexArgument(arr)
  }

  /**
   * `processCommand` after the lookup, for the command `command` and the
   * input cut into `arr`. `saved` is the list the store is told about:
   * the front end saves its own list, which need not be `todos`.
   */
  method Dispatch(command: Command, arr: seq<string>, todos: TaskList, verbose: bool,
                  storage: Storage, saved: TaskList, env: Env) returns (o: Outcome)
    modifies todos, storage
    ensures command in {List, Unknown} ==> o == Completed && unchanged(todos, storage)
    ensures command == Bye ==> o == Exits && unchanged(todos, storage)
    ensures command in {Mark, Unmark} ==>
      (match IndexArgument(arr)
       case Err(f) => o == Raised(f) && unchanged(todos, storage)
       case Ok(n) =>
         var i := Wrap32(n - 1);
         if 0 <= i < |old(todos.tasks)| then
           && todos.tasks == WithDone(old(todos.tasks), i, command == Mark)
           && storage.updates == old(storage.updates) + (if verbose then [saved.tasks] else [])
           && o == Completed
         else
           o == Raised(IndexOutOfBounds(i)) && unchanged(todos, storage))
    ensures command == Todo ==>
      (match TodoArgument(arr)
       case Err(f) => o == Raised(f) && unchanged(todos, storage)
       case Ok(description) =>
         && todos.tasks == old(todos.tasks) + [NewTodo(description, None)]
         && storage.updates == old(storage.updates) + (if verbose then [saved.tasks] else [])
         && o == Completed)
    ensures command == Deadline ==>
      (match DeadlineArguments(arr)
       case Err(f) => o == Raised(f) && unchanged(todos, storage)
       case Ok(fields) =>
         match NewDeadline(fields.0, fields.1, None, env.parseDateTime)
         case Err(f) => o == Raised(f) && unchanged(todos, storage)
         case Ok(deadline) =>
           && todos.tasks == old(todos.tasks) + [deadline]
           && storage.updates == old(storage.updates) + (if verbose then [saved.tasks] else [])
           && o == Completed)
    ensures command == Event ==>
      (match EventArguments(arr)
       case Err(f) => o == Raised(f) && unchanged(todos, storage)
       case Ok(fields) =>
         match ModelEvent.NewEvent(fields.0, fields.1, fields.2, env.parseDateTime)
         case Err(f) => o == Raised(f) && unchanged(todos, storage)
         case Ok(event) =>
           && todos.tasks == old(todos.tasks) + [event]
           && storage.updates == old(storage.updates) + (if verbose then [saved.tasks] else [])
           && o == Completed)
    ensures command == Delete ==>
      (match DeleteArgument(arr)
       case Err(f) => o == Raised(f) && unchanged(todos, storage)
       case Ok(n) =>
         var i := Wrap32(n - 1);
         if 0 <= i < |old(todos.tasks)| then
           && todos.tasks == RemoveAt(old(todos.tasks), i)
           && storage.updates == old(storage.updates) + (if verbose then [saved.tasks] else [])
           && o == Completed
         else
           o == Raised(TaskNotExistException(n)) && unchanged(todos, storage))
  {
    match command
    case Bye =>
      o := Exits;
    case List =>
      o := Completed;
    case Unknown =>
      o := Completed;
    case Mark =>
      o := SetDone(arr, todos, verbose, storage, saved, true);
    case Unmark =>
      o := SetDone(arr, todos, verbose, storage, saved, false);
    case Todo =>
      var description := TodoArgument(arr);
      if description.Err? {
        return Raised(description.error);
      }
      o := AddTask(NewTodo(description.value, None), todos, verbose, storage, saved);
    case Deadline =>
      var fields := DeadlineArguments(arr);
      if fields.Err? {
        return Raised(fields.error);
      }
      var deadline := NewDeadline(fields.value.0, fields.value.1, None, env.parseDateTime);
      if deadline.Err? {
        return Raised(deadline.error);
      }
      o := AddTask(deadline.value, todos, verbose, storage, saved);
    case Event =>
      var fields := EventArguments(arr);
      if fields.Err? {
        return Raised(fields.error);
      }
      var event := ModelEvent.NewEvent(fields.value.0, fields.value.1, fields.value.2, env.parseDateTime);
      if event.Err? {
        return Raised(event.error);
      }
      o := AddTask(event.value, todos, verbose, storage, saved);
    case Delete =>
      var n := DeleteArgument(arr);
      if n.Err? {
        return Raised(n.error);
      }
      var got := todos.Get(Wrap32(n.value - 1));
      if got.Err? {
        return Raised(TaskNotExistException(n.value));
      }
      todos.Remove(Wrap32(n.value - 1));
      if verbose {
        storage.UpdateRecords(saved);
      }
      o := Completed;
  }

  /** The shared tail of the todo, deadline and event branches: append, then save when verbose. */
  method AddTask(t: Task, todos: TaskList, verbose: bool, storage: Storage, saved: TaskList) returns (o: Outcome)
    modifies todos, storage
    ensures todos.tasks == old(todos.tasks) + [t]
    ensures storage.updates == old(storage.updates) + (if verbose then [saved.tasks] else [])
    ensures o == Completed
  {
    todos.Add(t);
    if verbose {
      storage.UpdateRecords(saved);
    }
    o := Completed;
  }

  /** The mark and unmark branches (lines 69-97). */
  method SetDone(arr: seq<string>, todos: TaskList, verbose: bool, storage: Storage, saved: TaskList, done: bool)
    returns (o: Outcome)
    modifies todos, storage
    ensures match IndexArgument(arr)
      case Err(f) => o == Raised(f) && unchanged(todos, storage)
      case Ok(n) =>
        var i := Wrap32(n - 1);
        if 0 <= i < |old(todos.tasks)| then
          && todos.tasks == WithDone(old(todos.tasks), i, done)
          && storage.updates == old(storage.updates) + (if verbose then [saved.tasks] else [])
          && o == Completed
        else
          o == Raised(IndexOutOfBounds(i)) && unchanged(todos, storage)
  {
    var n := IndexArgument(arr);
    if n.Err? {
      return Raised(n.error);
    }
    var index := Wrap32(n.value - 1);
    var got := todos.Get(index);
    if got.Err? {
      return Raised(got.error);
    }
    todos.SetDone(index, done);
    if verbose {
      storage.UpdateRecords(saved);
    }
    o := Completed;
  }

  /**
   * `processCommand` as written: the keyword is the input up to the first
   * space, and since the lookup always yields `Unknown`, no input changes the
   * list or the store.
   */
  method ProcessCommand(userInput: string, todos: TaskList, verbose: bool,
                        storage: Storage, saved: TaskList, env: Env) returns (o: Outcome)
    modifies todos, storage
    ensures o == Completed && unchanged(todos, storage)
  {
    var arr := SplitOnce(userInput, " ");
    var command := FromString(arr[0]);
    FromStringIsAlwaysUnknown(arr[0]);
    o := Dispatch(command, arr, todos, verbose, storage, saved, env);
  }

  /**
   * `processCommand` with the intended lookup: `todo <text>` appends a todo
   * holding the whole text, and an unrecognised keyword changes nothing.
   */
  method ProcessCommandIntended(userInput: string, todos: TaskList, verbose: bool,
                                storage: Storage, saved: TaskList, env: Env) returns (o: Outcome)
    modifies todos, storage
    ensures FromStringIntended(Before(userInput, " ")) == Unknown ==> o == Completed && unchanged(todos, storage)
    ensures FromStringIntended(Before(userInput, " ")) == Todo && Contains(userInput, " ") ==>
      && todos.tasks == old(todos.tasks) + [NewTodo(After(userInput, " "), None)]
      && o == Completed
    ensures FromStringIntended(Before(userInput, " ")) == Todo && !Contains(userInput, " ") ==>
      o == Raised(DukeException(TodoEmptyMessage)) && unchanged(todos, storage)
  {
    var arr := SplitOnce(userInput, " ");
    var command := FromStringIntended(arr[0]);
    o := Dispatch(command, arr, todos, verbose, storage, saved, env);
  }
}
