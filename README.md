# Snoopy task tracker — command layer model

A Dafny model of the command layer of a small Java chatbot that keeps a list
of tasks (todos, deadlines and events):

- **Command handlers** (`snoopy.TaskManager`). These take the input cut into
  `[keyword, rest]`. A handler extracts its fields by cutting the rest on the
  literal delimiters `" /by "`, `" /from "`, `" /to "` and `" /tag "`. It then
  changes the shared task list in place, or reads it, and returns the reply
  text. The list is a class (`Tasks.TaskList`) whose methods reassign its
  `tasks` sequence. The save file is a class (`Tasks.Storage`) that records
  every list it is asked to save.
- **Front end** (`duke.Duke`). It holds the `Command` enumeration with its
  `fromString` lookup. Its `processCommand` cuts the input at the first space,
  looks up the keyword and dispatches. The dispatch is modelled on its own,
  as a module-level method that takes the looked-up `Command` as a parameter
  (`Duke.Dispatch`).
- **Two event classes.**
  - `model.Event` keeps the start and end both as typed and as parsed. It
    shows the parsed values and saves the typed ones.
  - The undated `Event` of the default package shows the typed text.

The Java library behaviour the handlers depend on is modelled in its own
terms:

- `String.split` with a literal delimiter. Matches are leftmost and do not
  overlap. Trailing empty pieces are dropped. The input comes back whole when
  the delimiter does not occur.
- `split(" ", 2)`, `indexOf`, `contains` and `toUpperCase`.
- `Integer.valueOf`, which throws `NumberFormatException`.
- 32-bit `int` arithmetic with wrap-around.

The classes behind the tasks are not part of this model, so what the
handlers need from them is a parameter, `Tasks.Env`:

- `taskText` is the shared `Task.toString`.
- `variantText` is the `toString` override of todos and deadlines.
- `format` is the `"MMM dd yyyy HHmm"` date pattern.
- `parseDateTime` is `Task.parseDateTime`, which may fail with a message.

An event, by contrast, is shown through its own override, `ModelEvent.Render`.
`TaskManager.Show` chooses between the two, and every handler reply, listing
and search goes through it.

An exception is a value in the model. `Tasks.Reply` records whether a
handler returned a text, returned the message of an exception it caught, or
let one escape. `Duke.Outcome` does the same for the front end.

Three behaviours of the code that its comments and names do not suggest:

- **Event extraction order.** `processEvent` cuts in the order description,
  start, end, tag. A `" /tag "` written before `" /to "` therefore stays
  inside the start text, not the end text (`TaskManager.EventFieldsMeaning`).
- **Event guard.** The event guard fires only for four arguments.
  `processCommand` never produces four, because it cuts the input into at
  most two pieces (`Duke.EventGuardIsDead`). A bare `event` fails on a
  missing array slot instead.
- **What the front end saves.** The front end saves its own static task list
  rather than the list it was handed. `Duke.Dispatch` takes that list as the
  separate parameter `saved`.

## Model

| member | source | states |
|---|---|---|
| `TaskManager.IsValidDeleteCommand` | src/main/java/snoopy/TaskManager.java:22-24 | the delete guard holds exactly when reading the task number fails on the missing slot |
| `TaskManager.IsValidEventCommand` | src/main/java/snoopy/TaskManager.java:31-33 | the event guard holds for no cut of an input at its first space |
| `TaskManager.ProcessDelete` | src/main/java/snoopy/TaskManager.java:44-48 | with a task number the reply is the usage text listing the arguments; without one a missing-slot exception escapes; nothing is modified |
| `TaskManager.DeleteNumbered` | src/main/java/snoopy/TaskManager.java:48-64 | a number that does not parse escapes as `NumberFormatException`; an in-range number n removes task n-1 and keeps the rest in order, saves when verbose, and replies with the removed task and the new count; any other number returns the `TaskNotExistException` message and changes nothing |
| `TaskManager.ProcessDeleteIntended` | src/main/java/snoopy/TaskManager.java:44-64 | usage text only without a number; with a number, the whole outcome of the removal body: a non-number escapes as `NumberFormatException`; number n with 1 <= n <= size removes exactly the n-th task, saves when verbose and replies with it and the new count; a number out of range returns the `TaskNotExistException` message and changes nothing |
| `TaskManager.EventGuard` | src/main/java/snoopy/TaskManager.java:31-33 | the "description cannot be empty" exception is raised exactly for four arguments; every other extraction failure is a missing slot |
| `TaskManager.EventFields` | src/main/java/snoopy/TaskManager.java:77-95 | a successful extraction comes from two or more (but not four) arguments, and no field holds the delimiter that ends it |
| `TaskManager.EventFieldsMeaning` | src/main/java/snoopy/TaskManager.java:84-89 | the description is the text before the first `" /from "`; the start is the text up to the first `" /to "` after it; the end is the text after that up to the first `" /tag "` |
| `TaskManager.EventNeedsFromAndTo` | src/main/java/snoopy/TaskManager.java:84-87 | input without `" /from "` or without `" /to "` fails on a missing slot |
| `TaskManager.ProcessEvent` | src/main/java/snoopy/TaskManager.java:76-113 | extraction failures escape with the list unchanged; the tagged or untagged constructor is chosen by whether a tag was cut; a date that does not parse is caught and its message returned with nothing changed; otherwise exactly one event is appended, saved when verbose, and the reply shows it and the new count |
| `TaskManager.DeadlineFields` | src/main/java/snoopy/TaskManager.java:125-135 | a successful extraction always carries a tag |
| `TaskManager.DeadlineFieldsMeaning` | src/main/java/snoopy/TaskManager.java:131-135 | the description is the text before the first `" /by "`, the due text runs from there to the first `" /tag "`, and the tag to the next one |
| `TaskManager.DeadlineNeedsByAndTag` | src/main/java/snoopy/TaskManager.java:131-135 | input without `" /by "` or without `" /tag "` fails on a missing slot, so the tagless constructor is never reached |
| `TaskManager.DeadlineFieldsIntended` | src/main/java/snoopy/TaskManager.java:125-143 | with the tag read only when present: one argument raises the Duke exception; a success has the text before the first `" /by "` as description and a due text free of `" /tag "` |
| `TaskManager.TaglessDeadline` | src/main/java/snoopy/TaskManager.java:131-143 | for `description /by due` with no tag, the intended extraction gives (description, due, no tag) while the code as written fails |
| `TaskManager.ProcessDeadline` | src/main/java/snoopy/TaskManager.java:124-154 | extraction failures escape with the list unchanged; a due text that does not parse is caught and its message returned; otherwise one deadline is appended, saved when verbose, and the reply shows it and the new count |
| `TaskManager.ProcessDeadlineIntended` | src/main/java/snoopy/TaskManager.java:131-143 | the same handler with the tag read only when present |
| `TaskManager.AddDeadline` | src/main/java/snoopy/TaskManager.java:137-153 | a constructor failure is caught with nothing changed; otherwise the deadline is appended and saved when verbose |
| `TaskManager.TodoFields` | src/main/java/snoopy/TaskManager.java:166-179 | exactly a one-element argument array raises the Duke exception; a description never holds `" /tag "` |
| `TaskManager.TodoFieldsMeaning` | src/main/java/snoopy/TaskManager.java:172-179 | the description is the text before the first `" /tag "`; the tag is the text between the first and second; without the delimiter the whole rest is the description and there is no tag |
| `TaskManager.ProcessTodo` | src/main/java/snoopy/TaskManager.java:165-187 | a one-element argument array raises the Duke exception with the list unchanged (an empty description text is accepted); a rest made only of tag delimiters fails on a missing slot; otherwise exactly one todo (tagged when a tag was cut) is appended, saved when verbose, and the reply shows it and the new count |
| `TaskManager.ProcessMark` | src/main/java/snoopy/TaskManager.java:198-209 | index n-1 (32-bit arithmetic) in range sets that task done and changes no other task; otherwise the exception escapes with nothing changed |
| `TaskManager.ProcessUnmark` | src/main/java/snoopy/TaskManager.java:234-251 | the same with the done flag cleared |
| `TaskManager.ProcessList` | src/main/java/snoopy/TaskManager.java:219-232 | the header, then, only when verbose, one line `k. <task>` per task in list order numbered from 1 |
| `TaskManager.ListingAppend` | src/main/java/snoopy/TaskManager.java:224-229 | listing two lists one after the other continues the numbering |
| `TaskManager.CollectMatches` | src/main/java/snoopy/TaskManager.java:253-261 | a new list holding exactly the tasks whose rendering contains the query, in list order |
| `TaskManager.MatchingMembers` | src/main/java/snoopy/TaskManager.java:258-260 | a task is matched exactly when it is in the list and its rendering contains the query; no more tasks than the list |
| `TaskManager.MatchingAppend` | src/main/java/snoopy/TaskManager.java:256-261 | matching distributes over concatenation, so relative order is kept |
| `TaskManager.FindSeesEventDates` | src/main/java/snoopy/TaskManager.java:256-260 | an event is found by the formatted form of either of its dates, which its `toString` shows |
| `TaskManager.ProcessFind` | src/main/java/snoopy/TaskManager.java:252-273 | no query slot escapes; no match gives the apology; otherwise the header and the matches numbered from 1 in list order |
| `Tasks.IndexArgument` | src/main/java/snoopy/TaskManager.java:200 | a missing slot fails; a parsed number lies within the 32-bit range |
| `Tasks.IndexArgumentOfNumber` | src/main/java/snoopy/TaskManager.java:200 | the decimal text of a number in range reads back as that number |
| `Tasks.RemoveAtLosesOne` | src/main/java/snoopy/TaskManager.java:52 | removing a task loses exactly that task from the multiset of tasks |
| `Tasks.MarkThenUnmark` | src/main/java/snoopy/TaskManager.java:198-251 | marking then unmarking a task equals unmarking it, and restores the list exactly when the task was not done |
| `Tasks.TaskList.Get` | src/main/java/snoopy/TaskManager.java:201 | the task at the index, or an index-out-of-bounds failure exactly when the index is out of range |
| `Tasks.NewDeadline` | src/main/java/snoopy/TaskManager.java:140-142 | a deadline exists exactly when its due text parses; it keeps the typed text and the parsed value and is not done |
| `ModelEvent.NewEvent` | src/main/java/model/Event.java:13-19 | an event exists exactly when both dates parse, with the start parsed first; it keeps the typed and the parsed values, is not done and has no tag |
| `ModelEvent.NewTaggedEvent` | src/main/java/snoopy/TaskManager.java:96 | the three-argument event with the tag recorded; it fails exactly when that one fails |
| `ModelEvent.Render` | src/main/java/model/Event.java:27-29 | `[E]`, the task's own rendering, then the formatted start and end in the `(from: … to: …)` frame, with the exact length |
| `ModelEvent.RenderShowsDates` | src/main/java/model/Event.java:27-29 | both formatted dates appear in the rendering |
| `ModelEvent.RenderIgnoresTypedText` | src/main/java/model/Event.java:27-29 | events that differ only in their typed text render alike |
| `ModelEvent.SaveRecord` | src/main/java/model/Event.java:35-37 | the record is the five fields (kind, done flag, description, typed start, typed end) joined by the save delimiter |
| `ModelEvent.SaveRecordSplits` | src/main/java/model/Event.java:35-37 | splitting the save record on its delimiter (space, bar, space) gives back its five fields when no field contains a bar and the end text is not empty |
| `ModelEvent.SaveRecordDeterminesFields` | src/main/java/model/Event.java:35-37 | for such fields, two records are equal exactly when their fields are equal |
| `PlainEvent.NewEvent` | src/main/java/Event.java:6-10 | a new event is not done and keeps its description, start and end as given |
| `PlainEvent.Render` | src/main/java/Event.java:13-15 | `[E]`, the task's own rendering and a closing parenthesis, with the exact length |
| `PlainEvent.RenderShowsTypedText` | src/main/java/Event.java:6-15 | the start and end appear verbatim at positions fixed by the lengths before them |
| `PlainEvent.ProjectMeetingExample` | src/main/java/Event.java:18-21 | the meeting from "Mon 2pm" to "4pm" renders as in the example |
| `Duke.ValueOf` | src/main/java/duke/Duke.java:18 | the constant with exactly that declared name, and none exactly when no constant has it |
| `Duke.FromString` | src/main/java/duke/Duke.java:19-25 | a command other than `Unknown` is found only when its declared name is the upper-cased input |
| `Duke.FromStringIsAlwaysUnknown` | src/main/java/duke/Duke.java:19-25 | no upper-cased text is a declared name, so every input looks up as `Unknown` |
| `Duke.FromStringIntendedFinds` | src/main/java/duke/Duke.java:17 | the intended lookup finds a command exactly when the input upper-cases to its spelling; the declared name itself is found |
| `Duke.TodoArgument` | src/main/java/duke/Duke.java:99-106 | the whole rest of the input is the description; one piece raises the Duke exception |
| `Duke.DeadlineArguments` | src/main/java/duke/Duke.java:116-125 | exactly a one-piece input raises the Duke exception; neither field holds `" /by "` |
| `Duke.DeadlineArgumentsMeaning` | src/main/java/duke/Duke.java:123-125 | the description is the text before the first `" /by "` and the due text runs to the next one; without `" /by "` the branch fails on a missing slot |
| `Duke.DeadlineArgumentsAgree` | src/main/java/duke/Duke.java:116-126 | without `" /tag "`, the front end and the intended deadline handler cut the same fields |
| `Duke.EventArguments` | src/main/java/duke/Duke.java:136-148 | a successful extraction comes from two or more (not four) pieces; the description holds no `" /from "` and the start no `" /to "` |
| `Duke.EventGuardIsDead` | src/main/java/duke/Duke.java:41-42 | the four-argument guard of the event branch never fires on an input cut at its first space |
| `Duke.EventArgumentsAgree` | src/main/java/duke/Duke.java:136-151 | without `" /tag "`, the front end's extraction succeeds exactly when the event handler's does, and then both cut the same fields and the handler finds no tag |
| `Duke.DeleteArgument` | src/main/java/duke/Duke.java:162-168 | one piece raises the Duke exception; otherwise the number is read as the handlers read it |
| `Duke.Dispatch` | src/main/java/duke/Duke.java:50-189 | per command: list and unknown change nothing; bye exits; mark/unmark set one flag or raise; todo, deadline and event append one task or raise with nothing changed; delete removes one task or raises `TaskNotExistException`; when verbose each change saves the front end's list |
| `Duke.AddTask` | src/main/java/duke/Duke.java:106-113 | appends one task and saves when verbose |
| `Duke.SetDone` | src/main/java/duke/Duke.java:69-97 | sets one task's done flag, or raises with nothing changed |
| `Duke.ProcessCommand` | src/main/java/duke/Duke.java:37-48 | as written, no input changes the list or the store |
| `Duke.ProcessCommandIntended` | src/main/java/duke/Duke.java:37-114 | with the intended lookup, `todo <text>` appends one todo holding the whole text, a bare `todo` raises, and an unknown keyword changes nothing |

## Left out

- Console output (`System.out`, `UI`) is not modelled, nor are the verbose-only lines printed before a failure; only returned texts and state changes are.
- `Bye` only records that the program exits; the farewell text and `System.exit` are not modelled.
- The run loop, the `Parser`, loading the save file and the constructor of `Duke` are not modelled. The null task list left by a failed load is not modelled either.
- The file writing done by `Storage.updateRecords` is not part of this model. The store records which list it was handed.
- `Task.toString`, the `toString` overrides of todos and deadlines, `Task.parseDateTime` and the date formatter are parameters. The calendar rules of `LocalDateTime` are not modelled.
- The `Deadline` constructor and the four-argument `Event` constructor are not part of this model. They are taken to parse the due text, and to behave as the three-argument event with the tag recorded.
- Task objects are values. Aliasing of one task object between two lists, which `markAsDone` would make visible, is not modelled.
- `toUpperCase` is modelled on ASCII letters only. `Integer.valueOf` is modelled on ASCII digits only. `null` inputs are not modelled.
- The unused `UserInput` parameter of every handler is dropped.
- `Tasks.TaskList.Remove`: requires an index in range. Its callers check the index first with `Get`, which models the exception.
- `ModelEvent.SaveRecordSplits`: needs fields without a bar character and a non-empty end text. Other records need not split back into their fields. The lemma is about a literal cut on the three characters; Java's `split(" | ")` would read them as a regular expression, but the code that reads the save file is not part of this model.

## Findings

| source | as written | input that shows it | evidently intended | confidence | as-written member | corrected member |
|---|---|---|---|---|---|---|
| src/main/java/snoopy/TaskManager.java:22-24 | `isValidDeleteCommand` holds for at most one argument, and `processDelete` returns the usage text when it does NOT hold | `delete 1` gets the usage text; `delete` alone fails on `inputArguments[1]`; no task is ever removed | the guard holds when the task number is present | high, not executed | `TaskManager.ProcessDelete` | `TaskManager.ProcessDeleteIntended` |
| src/main/java/snoopy/TaskManager.java:133-143 | `byAndTag[1]` is read before checking whether a tag was given | `deadline return book /by 2019-12-02 1800` fails on a missing slot | the tag is read only when present, and the tagless constructor is used otherwise | high, not executed | `TaskManager.TaglessDeadline` | `TaskManager.ProcessDeadlineIntended` |
| src/main/java/duke/Duke.java:18-21 | the constants are declared in mixed case and looked up by the upper-cased keyword | `todo read book` looks up `TODO`, finds no constant and is `Unknown` | constants in upper case, as in the commented-out line 17 | high, not executed | `Duke.FromStringIsAlwaysUnknown` | `Duke.FromStringIntendedFinds` |
