/**
 * The undated event task of the default package (`Event`): the start and
 * end are kept as typed and shown as typed.
 */
module PlainEvent {
  import opened JavaText

  /** An event with the shared task fields it is built with (description, done flag). */
  datatype Event = Event(description: string, done: bool, from: string, to: string)

  /** `new Event(description, from, to)`: a task not yet done, with the start and end stored as given. */
  function NewEvent(description: string, from: string, to: string): (e: Event)
    ensures !e.done && e.description == description
    ensures e.from == from && e.to == to
  {
    Event(description, false, from, to)
  }

  /** `toString`, where `base` is the task's own rendering (`Task.toString`), not part of this model. */
  function Render(e: Event, base: string): (r: string)
    ensures |r| == 17 + |base| + |e.from| + |e.to|
    ensures r[..3] == "[E]" && r[|r| - 1] == ')'
    ensures r[3..3 + |base|] == base
  {
    "[E]" + base + " (from: " + e.from + " to: " + e.to + ")"
  }

  /**
   * The start and end appear verbatim, with no date parsing, at positions
   * fixed by the lengths of the parts before them.
   */
  lemma {:induction false} RenderShowsTypedText(description: string, from: string, to: string, base: string)
    ensures var r := Render(NewEvent(description, from, to), base);
      && r[3 + |base|..3 + |base| + 8] == " (from: "
      && r[11 + |base|..11 + |base| + |from|] == from
      && r[11 + |base| + |from|..16 + |base| + |from|] == " to: "
      && r[16 + |base| + |from|..|r| - 1] == to
  {
    var r := Render(NewEvent(description, from, to), base);
    assert r == "[E]" + base + " (from: " + from + " to: " + to + ")";
    assert r == ("[E]" + base) + " (from: " + from + " to: " + to + ")";
  }

  /** The example the source file ends with: a meeting from "Mon 2pm" to "4pm". */
  lemma ProjectMeetingExample()
    ensures Render(NewEvent("project meeting", "Mon 2pm", "4pm"), "[ ] project meeting")
         == "[E][ ] project meeting (from: Mon 2pm to: 4pm)"
  {
  }
}
