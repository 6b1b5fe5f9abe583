/**
 * The command handlers (`snoopy.TaskManager`). Each takes the input already
 * split into `[keyword, rest]`, extracts its fields by cutting on the literal
 * delimiters, changes the shared task list in place or queries it, and
 * returns a message. Extraction is pure and done before any change, so every
 * failure leaves the list and the store as they were.
 */
module TaskManager {
  import opened Wrappers
  import opened JavaText
  import opened JavaInt
  import opened Tasks
  import ModelEvent

  const ByDelimiter := " /by "
  const FromDelimiter := " /from "
  const ToDelimiter := " /to "
  const TagDelimiter := " /tag "

  const ListHeader := " Here are the tasks in your list:\n"
  const FindHeader := " Here are the matching tasks:\n"
  const NoMatchMessage := " Sorry no tasks found matching that word :<"
  const MarkedMessage := " Great job! I've marked this as done:\n "
  const UnmarkedMessage := " OK, I've marked this task as not done yet:\n "

  /**
   * `toString` of a task, as the handlers call it: an event shows through
   * `model.Event.toString`, built on the shared `Task.toString`; the
   * overrides of the other variants are not part of this model.
   */
  function Show(env: Env, t: Task): string {
    if t.kind.EventKind? then ModelEvent.Render(t, env.taskText(t), env.format)
    else env.variantText(t)
  }

  /** `"Now you have N tasks in the list."` */
  function CountLine(n: nat): string {
    "Now you have " + NatToString(n) + " tasks in the list."
  }

  /** The reply to a delete whose guard rejects the arguments. */
  function DeleteUsage(args: seq<string>): string {
    "inputArguments:" + ArrayToString(args) + "\n" + DeleteWhichMessage
  }

  // ---------------------------------------------------------------- guards

  /**
   * `isValidDeleteCommand`: holds exactly when there is NO task number, that
   * is, exactly when reading the number that follows it must fail.
   */
  predicate IsValidDeleteCommand(args: seq<string>)
    ensures IsValidDeleteCommand(args) <==> IndexArgument(args) == Err(ArrayIndexOutOfBounds)
  {
    |args| <= 1
  }

  /**
   * `isValidEventCommand`: holds for exactly four arguments, and the handler
   * then throws; no cut of an input at its first space has that many.
   */
  predicate IsValidEventCommand(args: seq<string>)
    ensures IsValidEventCommand(args) ==> forall s :: args != SplitOnce(s, " ")
  {
    |args| == 4
  }

  // ------------------------------------------------------ field extraction

  /** The text between the first and the second occurrence of `d`. */
  function Second(s: string, d: string): string
    requires |d| > 0 && Contains(s, d)
  {
    Before(After(s, d), d)
  }


  /**
   * Lines 166-179: the description and the optional tag of a todo. Only a
   * one-element argument array is refused with the Duke exception; the
   * description never holds the tag delimiter.
   */
  function TodoFields(args: seq<string>): (r: Result<(string, Option<string>), Failure>)
    ensures |args| == 1 <==> r == Err(DukeException(TodoEmptyMessage))
    ensures r.Ok? ==> |args| >= 2 && !Contains(r.value.0, TagDelimiter)
  {
    if |args| == 1 then Err(DukeException(TodoEmptyMessage))
    else if |args| == 0 then Err(ArrayIndexOutOfBounds)
    else
      var arguments := Split(args[1], TagDelimiter);
      if |arguments| == 0 then Err(ArrayIndexOutOfBounds)
      else Ok((arguments[0], if |arguments| > 1 then Some(arguments[1]) else None))
  }

  /**
   * The todo description is the text before the first `" /tag "` and the tag
   * the text after it, up to the next one; without the delimiter the whole
   * argument is the description and there is no tag.
   */
  lemma TodoFieldsMeaning(args: seq<string>)
    requires |args| >= 2
    ensures TodoFields(args).Ok? ==> TodoFields(args).value.0 == Before(args[1], TagDelimiter)
    ensures TodoFields(args).Ok? && TodoFields(args).value.1.Some? ==>
      Contains(args[1], TagDelimiter)
      && TodoFields(args).value.1.value == Before(After(args[1], TagDelimiter), TagDelimiter)
    ensures !Contains(args[1], TagDelimiter) ==> TodoFields(args) == Ok((args[1], None))
  {
    if |Split(args[1], TagDelimiter)| > 1 {
      SplitSecond(args[1], TagDelimiter);
    }
  }

  /**
   * Lines 125-135 as written: the description, the due text and the tag. The
   * tag slot is read whether or not there is one, so a failed read here
   * comes before any task is built.
   */
  function DeadlineFields(args: seq<string>): (r: Result<(string, string, Option<string>), Failure>)
    ensures r.Ok? ==> r.value.2.Some?
  {
    if |args| == 1 then Err(DukeException(DeadlineEmptyMessage))
    else if |args| == 0 then Err(ArrayIndexOutOfBounds)
    else
      var arguments := Split(args[1], ByDelimiter);
      if |arguments| < 2 then Err(ArrayIndexOutOfBounds)
      else
        var byAndTag := Split(arguments[1], TagDelimiter);
        if |byAndTag| < 2 then Err(ArrayIndexOutOfBounds)
        else Ok((arguments[0], byAndTag[0], Some(byAndTag[1])))
  }

  /**
   * A deadline argument without `" /by "`, or without `" /tag "`, fails on a
   * missing array slot; so the tagless constructor call of line 142 is never
   * reached.
   */
  lemma {:induction false} DeadlineNeedsByAndTag(args: seq<string>)
    requires |args| >= 2
    requires !Contains(args[1], ByDelimiter) || !Contains(args[1], TagDelimiter)
    ensures DeadlineFields(args) == Err(ArrayIndexOutOfBounds)
  {
    var arguments := Split(args[1], ByDelimiter);
    if |arguments| >= 2 {
      SplitSecond(args[1], ByDelimiter);
      var rest := After(args[1], ByDelimiter);
      var second := Before(rest, ByDelimiter);
      assert Before(args[1], ByDelimiter) + ByDelimiter + rest + "" == args[1];
      NotContainsInMiddle(Before(args[1], ByDelimiter) + ByDelimiter, rest, "", TagDelimiter);
      assert "" + second + rest[|second|..] == rest;
      NotContainsInMiddle("", second, rest[|second|..], TagDelimiter);
      assert Split(second, TagDelimiter) == [second];
    }
  }

  /**
   * Where the as-written deadline fields come from: the description is the
   * text before the first `" /by "`, the due text runs from there to the
   * first `" /tag "`, and the tag up to the next `" /tag "`.
   */
  lemma {:induction false} DeadlineFieldsMeaning(args: seq<string>)
    requires DeadlineFields(args).Ok?
    ensures Contains(args[1], ByDelimiter)
    ensures DeadlineFields(args).value.0 == Before(args[1], ByDelimiter)
    ensures Contains(Second(args[1], ByDelimiter), TagDelimiter)
    ensures DeadlineFields(args).value.1 == Before(Second(args[1], ByDelimiter), TagDelimiter)
    ensures DeadlineFields(args).value.2 == Some(Second(Second(args[1], ByDelimiter), TagDelimiter))
  {
    SplitSecond(args[1], ByDelimiter);
    SplitSecond(Second(args[1], ByDelimiter), TagDelimiter);
  }

  /**
   * The deadline fields as evidently intended: the tag is read only when
   * there is one.
   */
  function DeadlineFieldsIntended(args: seq<string>): (r: Result<(string, string, Option<string>), Failure>)
    ensures |args| == 1 <==> r == Err(DukeException(DeadlineEmptyMessage))
    ensures r.Ok? ==> |args| >= 2 && Contains(args[1], ByDelimiter)
    ensures r.Ok? ==> r.value.0 == Before(args[1], ByDelimiter)
    ensures r.Ok? ==> !Contains(r.value.1, TagDelimiter)
  {
    if |args| == 1 then Err(DukeException(DeadlineEmptyMessage))
    else if |args| == 0 then Err(ArrayIndexOutOfBounds)
    else
      var arguments := Split(args[1], ByDelimiter);
      if |arguments| < 2 then Err(ArrayIndexOutOfBounds)
      else
        var byAndTag := Split(arguments[1], TagDelimiter);
        if |byAndTag| < 1 then Err(ArrayIndexOutOfBounds)
        else Ok((arguments[0], byAndTag[0], if |byAndTag| > 1 then Some(byAndTag[1]) else None))
  }

  /**
   * `description /by due` with one `" /by "`, a non-empty due text and no
   * `" /tag "`: the intended extraction accepts it without a tag, while the
   * code as written fails on it.
   */
  lemma {:induction false} TaglessDeadline(args: seq<string>)
    requires |args| >= 2 && Contains(args[1], ByDelimiter) && !Contains(args[1], TagDelimiter)
    requires !Contains(After(args[1], ByDelimiter), ByDelimiter) && After(args[1], ByDelimiter) != ""
    ensures DeadlineFieldsIntended(args)
         == Ok((Before(args[1], ByDelimiter), After(args[1], ByDelimiter), None))
    ensures DeadlineFields(args) == Err(ArrayIndexOutOfBounds)
  {
    var rest := After(args[1], ByDelimiter);
    SplitOneDelimiter(args[1], ByDelimiter);
    assert Before(args[1], ByDelimiter) + ByDelimiter + rest + "" == args[1];
    NotContainsInMiddle(Before(args[1], ByDelimiter) + ByDelimiter, rest, "", TagDelimiter);
    assert Split(rest, TagDelimiter) == [rest];
    DeadlineNeedsByAndTag(args);
  }

  /**
   * Lines 77-95: the description, start, end and optional tag of an event,
   * cut in the order description, start, end, tag.
   */
  function EventFields(args: seq<string>): (r: Result<(string, string, string, Option<string>), Failure>)
    ensures r.Ok? ==> |args| >= 2 && |args| != 4
    ensures r.Ok? ==> !Contains(r.value.0, FromDelimiter) && !Contains(r.value.1, ToDelimiter)
    ensures r.Ok? ==> !Contains(r.value.2, TagDelimiter)
  {
    if IsValidEventCommand(args) then Err(DukeException(EventEmptyMessage))
    else if |args| < 2 then Err(ArrayIndexOutOfBounds)
    else
      var getDesc := Split(args[1], FromDelimiter);
      if |getDesc| < 2 then Err(ArrayIndexOutOfBounds)
      else
        var getDates := Split(getDesc[1], ToDelimiter);
        if |getDates| < 2 then Err(ArrayIndexOutOfBounds)
        else
          var getDateAndTag := Split(getDates[1], TagDelimiter);
          if |getDateAndTag| < 1 then Err(ArrayIndexOutOfBounds)
          else
            Ok((getDesc[0], getDates[0], getDateAndTag[0],
                if |getDateAndTag| > 1 then Some(getDateAndTag[1]) else None))
  }

  /**
   * Where each event field comes from. The start is everything between
   * `" /from "` and the first `" /to "` after it, so a `" /tag "` written
   * before `" /to "` stays inside the start text.
   */
  lemma {:induction false} EventFieldsMeaning(args: seq<string>)
    requires EventFields(args).Ok?
    ensures Contains(args[1], FromDelimiter)
    ensures EventFields(args).value.0 == Before(args[1], FromDelimiter)
    ensures Contains(Second(args[1], FromDelimiter), ToDelimiter)
    ensures EventFields(args).value.1 == Before(Second(args[1], FromDelimiter), ToDelimiter)
    ensures EventFields(args).value.2 == Before(Second(Second(args[1], FromDelimiter), ToDelimiter), TagDelimiter)
  {
    SplitSecond(args[1], FromDelimiter);
    SplitSecond(Second(args[1], FromDelimiter), ToDelimiter);
  }

  /** Only an argument array of length exactly four meets the guard; every other failure is a missing slot. */
  lemma EventGuard(args: seq<string>)
    ensures EventFields(args) == Err(DukeException(EventEmptyMessage)) <==> |args| == 4
    ensures EventFields(args).Err? && |args| != 4 ==> EventFields(args).error == ArrayIndexOutOfBounds
  {
  }

  /** An event argument without `" /from "` or without `" /to "` fails on a missing slot. */
  lemma {:induction false} EventNeedsFromAndTo(args: seq<string>)
    requires |args| >= 2 && |args| != 4
    requires !Contains(args[1], FromDelimiter) || !Contains(args[1], ToDelimiter)
    ensures EventFields(args) == Err(ArrayIndexOutOfBounds)
  {
    var getDesc := Split(args[1], FromDelimiter);
    if |getDesc| >= 2 {
      SplitSecond(args[1], FromDelimiter);
      var rest := After(args[1], FromDelimiter);
      var second := Before(rest, FromDelimiter);
      assert Before(args[1], FromDelimiter) + FromDelimiter + rest + "" == args[1];
      NotContainsInMiddle(Before(args[1], FromDelimiter) + FromDelimiter, rest, "", ToDelimiter);
      assert "" + second + rest[|second|..] == rest;
      NotContainsInMiddle("", second, rest[|second|..], ToDelimiter);
      assert Split(second, ToDelimiter) == [second];
    }
  }

  // ------------------------------------------------------------- handlers

  /** `processTodo`: appends one todo, or fails with the list unchanged. */
  method ProcessTodo(args: seq<string>, todos: TaskList, isVerbose: bool, storage: Storage, env: Env)
    returns (r: Reply)
    modifies todos, storage
    ensures match TodoFields(args)
      case Err(f) => r == Threw(f) && unchanged(todos, storage)
      case Ok(fields) =>
        var todo := NewTodo(fields.0, fields.1);
        && todos.tasks == old(todos.tasks) + [todo]
        && storage.updates == old(storage.updates) + (if isVerbose then [todos.tasks] else [])
        && r == Returned("Ooo happening! Added this task:\n" + Show(env, todo) + "\n" + CountLine(|todos.tasks|))
  {
    var fields := TodoFields(args);
    if fields.Err? {
      return Threw(fields.error);
    }
    var todo := NewTodo(fields.value.0, fields.value.1);
    todos.Add(todo);
    if isVerbose {
      storage.UpdateRecords(todos);
    }
    r := Returned("Ooo happening! Added this task:\n" + Show(env, todo) + "\n" + CountLine(|todos.tasks|));
  }

  /**
   * `processDeadline`: a constructor failure is caught and its message
   * returned; otherwise one deadline is appended.
   */
  method ProcessDeadline(args: seq<string>, todos: TaskList, isVerbose: bool, storage: Storage, env: Env)
    returns (r: Reply)
    modifies todos, storage
    ensures match DeadlineFields(args)
      case Err(f) => r == Threw(f) && unchanged(todos, storage)
      case Ok(fields) =>
        match NewDeadline(fields.0, fields.1, fields.2, env.parseDateTime)
        case Err(f) => r == ReturnedMessageOf(f) && unchanged(todos, storage)
        case Ok(deadline) =>
          && todos.tasks == old(todos.tasks) + [deadline]
          && storage.updates == old(storage.updates) + (if isVerbose then [todos.tasks] else [])
          && r == Returned("Ah deadlines. Added this task:\n" + Show(env, deadline) + "\n" + CountLine(|todos.tasks|))
  {
    var fields := DeadlineFields(args);
    if fields.Err? {
      return Threw(fields.error);
    }
    r := AddDeadline(fields.value, todos, isVerbose, storage, env);
  }

  /** `processDeadline` with the tag read only when there is one. */
  method ProcessDeadlineIntended(args: seq<string>, todos: TaskList, isVerbose: bool, storage: Storage, env: Env)
    returns (r: Reply)
    modifies todos, storage
    ensures match DeadlineFieldsIntended(args)
      case Err(f) => r == Threw(f) && unchanged(todos, storage)
      case Ok(fields) =>
        match NewDeadline(fields.0, fields.1, fields.2, env.parseDateTime)
        case Err(f) => r == ReturnedMessageOf(f) && unchanged(todos, storage)
        case Ok(deadline) =>
          && todos.tasks == old(todos.tasks) + [deadline]
          && storage.updates == old(storage.updates) + (if isVerbose then [todos.tasks] else [])
          && r == Returned("Ah deadlines. Added this task:\n" + Show(env, deadline) + "\n" + CountLine(|todos.tasks|))
  {
    var fields := DeadlineFieldsIntended(args);
    if fields.Err? {
      return Threw(fields.error);
    }
    r := AddDeadline(fields.value, todos, isVerbose, storage, env);
  }

  /** Lines 137-153: build the deadline, catching a failure, then append it. */
  method AddDeadline(fields: (string, string, Option<string>), todos: TaskList, isVerbose: bool, storage: Storage, env: Env)
    returns (r: Reply)
    modifies todos, storage
    ensures match NewDeadline(fields.0, fields.1, fields.2, env.parseDateTime)
      case Err(f) => r == ReturnedMessageOf(f) && unchanged(todos, storage)
      case Ok(deadline) =>
        && todos.tasks == old(todos.tasks) + [deadline]
        && storage.updates == old(storage.updates) + (if isVerbose then [todos.tasks] else [])
        && r == Returned("Ah deadlines. Added this task:\n" + Show(env, deadline) + "\n" + CountLine(|todos.tasks|))
  {
    var (description, byText, tag) := fields;
    var deadline := NewDeadline(description, byText, tag, env.parseDateTime);
    if deadline.Err? {
      return ReturnedMessageOf(deadline.error);
    }
    todos.Add(deadline.value);
    if isVerbose {
      storage.UpdateRecords(todos);
    }
    r := Returned("Ah deadlines. Added this task:\n" + Show(env, deadline.value) + "\n" + CountLine(|todos.tasks|));
  }

  /**
   * `processEvent`: the four-argument constructor when a tag was given, the
   * three-argument one otherwise; a constructor failure is caught and its
   * message returned.
   */
  method ProcessEvent(args: seq<string>, todos: TaskList, isVerbose: bool, storage: Storage, env: Env)
    returns (r: Reply)
    modifies todos, storage
    ensures match EventFields(args)
      case Err(f) => r == Threw(f) && unchanged(todos, storage)
      case Ok(fields) =>
        var made := if fields.3.Some?
          then ModelEvent.NewTaggedEvent(fields.0, fields.1, fields.2, fields.3.value, env.parseDateTime)
          else ModelEvent.NewEvent(fields.0, fields.1, fields.2, env.parseDateTime);
        match made
        case Err(f) => r == ReturnedMessageOf(f) && unchanged(todos, storage)
        case Ok(event) =>
          && todos.tasks == old(todos.tasks) + [event]
          && storage.updates == old(storage.updates) + (if isVerbose then [todos.tasks] else [])
          && r == Returned("Wow hardworker! Added: \n" + Show(env, event) + "\n" + CountLine(|todos.tasks|))
  {
    var fields := EventFields(args);
    if fields.Err? {
      return Threw(fields.error);
    }
    var (desc, from, to, tag) := fields.value;
    var event;
    if tag.Some? {
      event := ModelEvent.NewTaggedEvent(desc, from, to, tag.value, env.parseDateTime);
    } else {
      event := ModelEvent.NewEvent(desc, from, to, env.parseDateTime);
    }
    if event.Err? {
      return ReturnedMessageOf(event.error);
    }
    todos.Add(event.value);
    if isVerbose {
      storage.UpdateRecords(todos);
    }
    r := Returned("Wow hardworker! Added: \n" + Show(env, event.value) + "\n" + CountLine(|todos.tasks|));
  }

  /**
   * `processDelete` as written: the guard is inverted, so a task number gets
   * the usage message and no number fails on the missing slot; nothing is
   * ever removed (the method modifies nothing).
   */
  method ProcessDelete(args: seq<string>, todos: TaskList, isVerbose: bool, storage: Storage, env: Env)
    returns (r: Reply)
    ensures |args| >= 2 ==> r == Returned(DeleteUsage(args))
    ensures |args| < 2 ==> r == Threw(ArrayIndexOutOfBounds)
  {
    if !IsValidDeleteCommand(args) {
      return Returned(DeleteUsage(args));
    }
    // Integer.valueOf(inputArguments[1]) with at most one argument
    r := Threw(ArrayIndexOutOfBounds);
  }

  /**
   * Lines 48-64, the removal body, for the task number `text`: an in-range
   * number `i` removes task `i-1` and keeps the others in order; any other
   * number returns the message of `TaskNotExistException(i)` with the list
   * unchanged.
   */
  method DeleteNumbered(text: string, todos: TaskList, isVerbose: bool, storage: Storage, env: Env)
    returns (r: Reply)
    modifies todos, storage
    ensures match ParseInt(text)
      case None => r == Threw(NumberFormatException(text)) && unchanged(todos, storage)
      case Some(n) =>
        var i := Wrap32(n - 1);
        if 0 <= i < |old(todos.tasks)| then
          && todos.tasks == RemoveAt(old(todos.tasks), i)
          && storage.updates == old(storage.updates) + (if isVerbose then [todos.tasks] else [])
          && r == Returned("Okay! I've fed this task to Woodstock, bye bye!:\n"
                           + Show(env, old(todos.tasks)[i]) + "\n" + CountLine(|todos.tasks|))
        else
          r == ReturnedMessageOf(TaskNotExistException(n)) && unchanged(todos, storage)
  {
    var parsed := ParseInt(text);
    if parsed.None? {
      return Threw(NumberFormatException(text));
    }
    var i := parsed.value;
    var got := todos.Get(Wrap32(i - 1));
    if got.Err? {
      assert !(0 <= Wrap32(i - 1) < |old(todos.tasks)|);
      return ReturnedMessageOf(TaskNotExistException(i));
    }
    var task := got.value;
    todos.Remove(Wrap32(i - 1));
    if isVerbose {
      storage.UpdateRecords(todos);
    }
    r := Returned("Okay! I've fed this task to Woodstock, bye bye!:\n" + Show(env, task) + "\n" + CountLine(|todos.tasks|));
  }

  /** `processDelete` with the guard evidently intended: usage only when the task number is missing. */
  method ProcessDeleteIntended(args: seq<string>, todos: TaskList, isVerbose: bool, storage: Storage, env: Env)
    returns (r: Reply)
    modifies todos, storage
    ensures |args| <= 1 ==> r == Returned(DeleteUsage(args)) && unchanged(todos, storage)
    ensures |args| >= 2 ==>
      (match ParseInt(args[1])
       case None => r == Threw(NumberFormatException(args[1])) && unchanged(todos, storage)
       case Some(n) =>
         var i := Wrap32(n - 1);
         if 0 <= i < |old(todos.tasks)| then
           && todos.tasks == RemoveAt(old(todos.tasks), i)
           && storage.updates == old(storage.updates) + (if isVerbose then [todos.tasks] else [])
           && r == Returned("Okay! I've fed this task to Woodstock, bye bye!:\n"
                            + Show(env, old(todos.tasks)[i]) + "\n" + CountLine(|todos.tasks|))
         else
           r == ReturnedMessageOf(TaskNotExistException(n)) && unchanged(todos, storage))
  {
    if |args| <= 1 {
      return Returned(DeleteUsage(args));
    }
    r := DeleteNumbered(args[1], todos, isVerbose, storage, env);
  }

  /** `processMark`: sets the done flag of task `index-1` and changes nothing else. */
  method ProcessMark(args: seq<string>, todos: TaskList, isVerbose: bool, storage: Storage, env: Env)
    returns (r: Reply)
    modifies todos, storage
    ensures match IndexArgument(args)
      case Err(f) => r == Threw(f) && unchanged(todos, storage)
      case Ok(n) =>
        var i := Wrap32(n - 1);
        if 0 <= i < |old(todos.tasks)| then
          && todos.tasks == WithDone(old(todos.tasks), i, true)
          && storage.updates == old(storage.updates) + (if isVerbose then [todos.tasks] else [])
          && r == Returned(MarkedMessage + Show(env, todos.tasks[i]))
        else
          r == Threw(IndexOutOfBounds(i)) && unchanged(todos, storage)
  {
    var n := IndexArgument(args);
    if n.Err? {
      return Threw(n.error);
    }
    var index := Wrap32(n.value - 1);
    var got := todos.Get(index);
    if got.Err? {
      return Threw(got.error);
    }
    todos.SetDone(index, true);
    if isVerbose {
      storage.UpdateRecords(todos);
    }
    r := Returned(MarkedMessage + Show(env, todos.tasks[index]));
  }

  /** `processUnmark`: clears the done flag of task `index-1` and changes nothing else. */
  method ProcessUnmark(args: seq<string>, todos: TaskList, isVerbose: bool, storage: Storage, env: Env)
    returns (r: Reply)
    modifies todos, storage
    ensures match IndexArgument(args)
      case Err(f) => r == Threw(f) && unchanged(todos, storage)
      case Ok(n) =>
        var i := Wrap32(n - 1);
        if 0 <= i < |old(todos.tasks)| then
          && todos.tasks == WithDone(old(todos.tasks), i, false)
          && storage.updates == old(storage.updates) + (if isVerbose then [todos.tasks] else [])
          && r == Returned(UnmarkedMessage + Show(env, todos.tasks[i]))
        else
          r == Threw(IndexOutOfBounds(i)) && unchanged(todos, storage)
  {
    var n := IndexArgument(args);
    if n.Err? {
      return Threw(n.error);
    }
    var index := Wrap32(n.value - 1);
    var got := todos.Get(index);
    if got.Err? {
      return Threw(got.error);
    }
    todos.SetDone(index, false);
    if isVerbose {
      storage.UpdateRecords(todos);
    }
    r := Returned(UnmarkedMessage + Show(env, todos.tasks[index]));
  }

  // ------------------------------------------------------------- queries

  /** `"k. <task>\n"` */
  function NumberedLine(k: nat, text: string): string {
    NatToString(k) + ". " + text + "\n"
  }

  /** One numbered line per task of `ts`, in order, numbered from `first`. */
  function Listing(ts: seq<Task>, env: Env, first: nat): string
    decreases |ts|
  {
    if ts == [] then "" else NumberedLine(first, Show(env, ts[0])) + Listing(ts[1..], env, first + 1)
  }

  /** Listing two lists one after the other continues the numbering. */
  lemma {:induction false} ListingAppend(a: seq<Task>, b: seq<Task>, env: Env, first: nat)
    ensures Listing(a + b, env, first) == Listing(a, env, first) + Listing(b, env, first + |a|)
    decreases |a|
  {
    if a == [] {
      assert a + b == b;
    } else {
      assert (a + b)[0] == a[0] && (a + b)[1..] == a[1..] + b;
      ListingAppend(a[1..], b, env, first + 1);
    }
  }

  /** `processList`: the header, then, only when verbose, every task numbered from 1; the list is only read. */
  method ProcessList(todos: TaskList, isVerbose: bool, env: Env) returns (r: string)
    ensures r == ListHeader + (if isVerbose then Listing(todos.tasks, env, 1) else "")
  {
    var tasksString := "";
    for i := 0 to |todos.tasks|
      invariant tasksString == if isVerbose then Listing(todos.tasks[..i], env, 1) else ""
    {
      var currTask := todos.tasks[i];
      if isVerbose {
        ListingAppend(todos.tasks[..i], [currTask], env, 1);
        assert todos.tasks[..i + 1] == todos.tasks[..i] + [currTask];
        tasksString := tasksString + NumberedLine(i + 1, Show(env, currTask));
      }
    }
    assert todos.tasks[..|todos.tasks|] == todos.tasks;
    r := ListHeader + tasksString;
  }

  /** The tasks whose rendering contains `query`, in list order. */
  function Matching(ts: seq<Task>, env: Env, query: string): (ms: seq<Task>)
    decreases |ts|
  {
    if ts == [] then []
    else (if Contains(Show(env, ts[0]), query) then [ts[0]] else []) + Matching(ts[1..], env, query)
  }

  /** Matching keeps the original relative order: it distributes over concatenation. */
  lemma {:induction false} MatchingAppend(a: seq<Task>, b: seq<Task>, env: Env, query: string)
    ensures Matching(a + b, env, query) == Matching(a, env, query) + Matching(b, env, query)
    decreases |a|
  {
    if a == [] {
      assert a + b == b;
    } else {
      assert (a + b)[0] == a[0] && (a + b)[1..] == a[1..] + b;
      MatchingAppend(a[1..], b, env, query);
    }
  }

  /** A task is matched exactly when it is in the list and its rendering contains the query. */
  lemma {:induction false} MatchingMembers(ts: seq<Task>, env: Env, query: string)
    ensures |Matching(ts, env, query)| <= |ts|
    ensures forall t :: t in Matching(ts, env, query) <==> t in ts && Contains(Show(env, t), query)
    decreases |ts|
  {
    if ts != [] {
      MatchingMembers(ts[1..], env, query);
      assert ts == [ts[0]] + ts[1..];
    }
  }

  /**
   * An event is found by the formatted form of either of its dates, which
   * its rendering shows, and not necessarily by the text typed for them.
   */
  lemma FindSeesEventDates(ts: seq<Task>, env: Env, t: Task)
    requires t in ts && t.kind.EventKind?
    ensures t in Matching(ts, env, env.format(t.kind.fromTime))
    ensures t in Matching(ts, env, env.format(t.kind.toTime))
  {
    ModelEvent.RenderShowsDates(t, env.taskText(t), env.format);
    MatchingMembers(ts, env, env.format(t.kind.fromTime));
    MatchingMembers(ts, env, env.format(t.kind.toTime));
  }

  /** The first loop of `processFind`: a new list holding the matching tasks in list order. */
  method CollectMatches(todos: TaskList, env: Env, query: string) returns (matchingTasks: TaskList)
    ensures fresh(matchingTasks)
    ensures matchingTasks.tasks == Matching(todos.tasks, env, query)
  {
    matchingTasks := new TaskList();
    for i := 0 to |todos.tasks|
      invariant fresh(matchingTasks)
      invariant matchingTasks.tasks == Matching(todos.tasks[..i], env, query)
    {
      var currTask := todos.tasks[i];
      MatchingAppend(todos.tasks[..i], [currTask], env, query);
      assert todos.tasks[..i + 1] == todos.tasks[..i] + [currTask];
      if Contains(Show(env, currTask), query) {
        matchingTasks.Add(currTask);
      }
    }
    assert todos.tasks[..|todos.tasks|] == todos.tasks;
  }

  /**
   * `processFind`: the matching tasks, numbered from 1 in list order, or the
   * no-match message; the list is only read.
   */
  method ProcessFind(args: seq<string>, todos: TaskList, env: Env) returns (r: Reply)
    ensures |args| < 2 ==> r == Threw(ArrayIndexOutOfBounds)
    ensures |args| >= 2 ==>
      var ms := Matching(todos.tasks, env, args[1]);
      r == Returned(if ms == [] then NoMatchMessage else FindHeader + Listing(ms, env, 1))
  {
    if |args| < 2 {
      return Threw(ArrayIndexOutOfBounds);
    }
    var query := args[1];
    var matchingTasks := CollectMatches(todos, env, query);
    var found := matchingTasks.tasks;
    if |found| == 0 {
      return Returned(NoMatchMessage);
    }
    var matchingTasksString := "";
    for i := 0 to |found|
      invariant matchingTasksString == Listing(found[..i], env, 1)
    {
      var t := found[i];
      ListingAppend(found[..i], [t], env, 1);
      assert found[..i + 1] == found[..i] + [t];
      matchingTasksString := matchingTasksString + NumberedLine(i + 1, Show(env, t));
    }
    assert found[..|found|] == found;
    r := Returned(FindHeader + matchingTasksString);
  }
}
