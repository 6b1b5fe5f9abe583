/**
 * The dated event task (`model.Event`): it keeps the start and end as typed
 * and as parsed; it shows the parsed values and saves the typed ones.
 */
module ModelEvent {
  import opened Wrappers
  import opened JavaText
  import opened Tasks

  const SaveDelimiter := " | "

  /**
   * `new Event(description, from, to)`: the raw text is stored as given and
   * both dates are parsed, the start first; if either does not parse, no
   * event exists.
   */
  function NewEvent(description: string, from: string, to: string,
                    parse: string -> Result<DateTime, string>): (r: Result<Task, Failure>)
    ensures r.Ok? <==> parse(from).Ok? && parse(to).Ok?
    ensures parse(from).Err? ==> r == Err(DateTimeParseException(parse(from).error))
    ensures parse(from).Ok? && parse(to).Err? ==> r == Err(DateTimeParseException(parse(to).error))
    ensures r.Ok? ==> r.value.kind == EventKind(from, to, parse(from).value, parse(to).value)
    ensures r.Ok? ==> r.value.description == description && !r.value.done && r.value.tag == None
  {
    match parse(from)
    case Err(m) => Err(DateTimeParseException(m))
    case Ok(start) =>
      match parse(to)
      case Err(m) => Err(DateTimeParseException(m))
      case Ok(end) => Ok(Task(description, false, None, EventKind(from, to, start, end)))
  }

  /**
   * `new Event(description, from, to, tag)`, which the task manager calls but
   * whose source is not part of this model: taken to be the three-argument
   * constructor with the tag recorded.
   */
  function NewTaggedEvent(description: string, from: string, to: string, tag: string,
                          parse: string -> Result<DateTime, string>): (r: Result<Task, Failure>)
    ensures r.Ok? <==> NewEvent(description, from, to, parse).Ok?
    ensures r.Err? ==> r == NewEvent(description, from, to, parse)
    ensures r.Ok? ==> r.value == NewEvent(description, from, to, parse).value.(tag := Some(tag))
  {
    match NewEvent(description, from, to, parse)
    case Err(f) => Err(f)
    case Ok(t) => Ok(t.(tag := Some(tag)))
  }

  /**
   * `Event.toString`, where `base` is the task's own rendering (`Task.toString`)
   * and `format` is `DateTimeFormatter.ofPattern("MMM dd yyyy HHmm")`; neither
   * is part of this model.
   */
  function Render(e: Task, base: string, format: DateTime -> string): (r: string)
    requires e.kind.EventKind?
    ensures |r| == 17 + |base| + |format(e.kind.fromTime)| + |format(e.kind.toTime)|
    ensures r[..3] == "[E]" && r[|r| - 1] == ')'
    ensures r[3..3 + |base|] == base
    ensures OccursAt(r, " (from: " + format(e.kind.fromTime) + " to: ", 3 + |base|)
    ensures OccursAt(r, format(e.kind.toTime), |r| - 1 - |format(e.kind.toTime)|)
  {
    "[E]" + base + " (from: " + format(e.kind.fromTime) + " to: " + format(e.kind.toTime) + ")"
  }

  /** Both formatted dates appear in the rendering. */
  lemma RenderShowsDates(e: Task, base: string, format: DateTime -> string)
    requires e.kind.EventKind?
    ensures Contains(Render(e, base, format), format(e.kind.fromTime))
    ensures Contains(Render(e, base, format), format(e.kind.toTime))
  {
    var r := Render(e, base, format);
    OccursInside(r, " (from: ", format(e.kind.fromTime), " to: ", 3 + |base|);
  }

  /** The rendering shows the parsed dates: events that differ only in their typed text look alike. */
  lemma RenderIgnoresTypedText(e1: Task, e2: Task, base: string, format: DateTime -> string)
    requires e1.kind.EventKind? && e2.kind.EventKind?
    requires e1.kind.fromTime == e2.kind.fromTime && e1.kind.toTime == e2.kind.toTime
    ensures Render(e1, base, format) == Render(e2, base, format)
  {
  }

  /** `fileSavingString`: the record written to the save file, built from the typed text. */
  function SaveRecord(e: Task): (r: string)
    requires e.kind.EventKind?
    ensures r == Join(SaveFields(e), SaveDelimiter)
  {
    JoinFive(SaveFields(e), SaveDelimiter);
    "E | " + (if e.done then "1" else "0") + " | " + e.description + " | " + e.kind.fromText + " | " + e.kind.toText
  }

  /** The fields of the save record, in the order they are written. */
  function SaveFields(e: Task): seq<string>
    requires e.kind.EventKind?
  {
    ["E", if e.done then "1" else "0", e.description, e.kind.fromText, e.kind.toText]
  }

  /** Five fields joined by `d`, written out. */
  lemma JoinFive(ps: seq<string>, d: string)
    requires |ps| == 5
    ensures Join(ps, d) == ps[0] + d + ps[1] + d + ps[2] + d + ps[3] + d + ps[4]
  {
    assert Join(ps[3..], d) == ps[3] + d + ps[4] by {
      assert ps[3..][1..] == ps[4..] && Join(ps[4..], d) == ps[4];
    }
    assert Join(ps[2..], d) == ps[2] + d + ps[3] + d + ps[4] by {
      assert ps[2..][1..] == ps[3..];
    }
    assert Join(ps[1..], d) == ps[1] + d + ps[2] + d + ps[3] + d + ps[4] by {
      assert ps[1..][1..] == ps[2..];
    }
  }

  /** A field that the record's delimiter cannot cut or run into. */
  predicate Savable(field: string) {
    forall i :: 0 <= i < |field| ==> field[i] != '|'
  }

  /** A field without `|` ends at its first meeting with the delimiter. */
  lemma SavableEndsAtDelimiter(p: string)
    requires Savable(p)
    ensures IndexOf(p + SaveDelimiter, SaveDelimiter) == Some(|p|)
    ensures !Contains(p, SaveDelimiter)
  {
    var s := p + SaveDelimiter;
    assert OccursAt(s, SaveDelimiter, |p|);
    forall j | 0 <= j < |p| ensures !OccursAt(s, SaveDelimiter, j) {
      assert s[j + 1] != '|';
      assert s[j..j + 3][1] == s[j + 1];
    }
    IndexOfIs(s, SaveDelimiter, |p|);
    forall j | 0 <= j <= |p| - |SaveDelimiter| ensures !OccursAt(p, SaveDelimiter, j) {
      assert p[j..j + 3][1] == p[j + 1];
    }
  }

  /**
   * Splitting the save record on `" | "` gives back its five fields, provided
   * no field contains `|` and the end text is not empty (Java's `split` drops
   * a trailing empty field).
   */
  lemma {:induction false} SaveRecordSplits(e: Task)
    requires e.kind.EventKind?
    requires Savable(e.description) && Savable(e.kind.fromText) && Savable(e.kind.toText)
    requires e.kind.toText != ""
    ensures Split(SaveRecord(e), SaveDelimiter) == SaveFields(e)
  {
    var ps, d := SaveFields(e), SaveDelimiter;
    forall k | 0 <= k < |ps| ensures Savable(ps[k]) {
    }
    forall k | 0 <= k < |ps| - 1 ensures IndexOf(ps[k] + SaveDelimiter, SaveDelimiter) == Some(|ps[k]|) {
      SavableEndsAtDelimiter(ps[k]);
    }
    SavableEndsAtDelimiter(ps[4]);
    PiecesOfJoin(ps, SaveDelimiter);
    assert Contains(SaveRecord(e), SaveDelimiter) by {
      assert OccursAt(SaveRecord(e), SaveDelimiter, 1);
    }
  }

  /**
   * The record is a function of the typed text alone, and for savable fields
   * it loses nothing: equal records mean equal done flags, descriptions and
   * typed dates.
   */
  lemma {:induction false} SaveRecordDeterminesFields(e1: Task, e2: Task)
    requires e1.kind.EventKind? && e2.kind.EventKind?
    requires Savable(e1.description) && Savable(e1.kind.fromText) && Savable(e1.kind.toText) && e1.kind.toText != ""
    requires Savable(e2.description) && Savable(e2.kind.fromText) && Savable(e2.kind.toText) && e2.kind.toText != ""
    ensures SaveRecord(e1) == SaveRecord(e2) <==> SaveFields(e1) == SaveFields(e2)
  {
    if SaveRecord(e1) == SaveRecord(e2) {
      SaveRecordSplits(e1);
      SaveRecordSplits(e2);
    }
  }
}
