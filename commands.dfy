// The undo/redo units the editor records. In the program each is a label
// with two closures built at the call site; here each is a record of what
// the closures capture (the notes, and the values before and after), read
// by an interpreter (Editing.Editor.Apply).

module Commands {
  import opened Common
  import opened Notes
  import opened Timing

  datatype Command =
      /** ADD NOTE and TWEEN: redo adds the notes and sorts, undo removes them and sorts. */
    | AddNotes(added: seq<Note>)
      /** PASTE NOTES: as AddNotes, and redo selects the pasted notes, undo clears the selection. */
    | PasteNotes(pasted: seq<Note>)
      /** CUT NOTES: redo removes the notes and sorts, undo adds them back and sorts. */
    | CutNotes(cut: seq<Note>)
      /** MIRROR: both directions map every lane X to 4 - X. */
    | MirrorNotes(mirrored: seq<Note>)
      /** SCALE and the grid's MOVE NOTE: note i gets lane before[i] on undo, after[i] on redo. */
    | SetLanes(lanesOf: seq<Note>, lanesBefore: seq<real>, lanesAfter: seq<real>)
      /** The track's MOVE NOTE: note i gets time before[i] on undo, after[i] on redo, then the notes are sorted. */
    | SetTimes(timesOf: seq<Note>, timesBefore: seq<int>, timesAfter: seq<int>)
      /** MOVE POINT: the point gets its time before or after the drag, then the points are sorted. */
    | MovePoint(point: TimingPoint, pointBefore: int, pointAfter: int)

  /** One history entry: the label the history shows and the command. */
  datatype Action = Action(title: string, command: Command)

  /** The notes a command's closures capture. */
  function CapturedNotes(c: Command): seq<Note>
  {
    match c
    case AddNotes(ns) => ns
    case PasteNotes(ns) => ns
    case CutNotes(ns) => ns
    case MirrorNotes(ns) => ns
    case SetLanes(ns, _, _) => ns
    case SetTimes(ns, _, _) => ns
    case MovePoint(_, _, _) => []
  }

  /**
   * What the interpreter needs of a command: no note captured twice (a
   * selection never holds a note twice) and one value per note.
   */
  predicate WellFormed(c: Command)
  {
    Distinct(CapturedNotes(c)) &&
    match c
    case SetLanes(ns, before, after) => |before| == |ns| && |after| == |ns|
    case SetTimes(ns, before, after) => |before| == |ns| && |after| == |ns|
    case _ => true
  }

  /** "{base}" for one item, "{base}S" for several: the labels MOVE NOTE(S) and CUT NOTE(S). */
  function CountLabel(base: string, n: int): (r: string)
    ensures n > 1 ==> r == base + "S"
    ensures n <= 1 ==> r == base
  {
    base + (if n > 1 then "S" else "")
  }

  /** The paste label as written: the plural test is n > 0, inside a branch taken only when n > 0. */
  function PasteLabelAsWritten(n: int): (r: string)
    ensures n > 0 ==> r == "PASTE NOTES"
  {
    "PASTE NOTE" + (if n > 0 then "S" else "")
  }

  /** Pasting a single note is labelled as if several were pasted; the count rule of the other labels says "PASTE NOTE". */
  lemma SinglePasteLabel()
    ensures PasteLabelAsWritten(1) == "PASTE NOTES"
    ensures CountLabel("PASTE NOTE", 1) == "PASTE NOTE"
    ensures PasteLabelAsWritten(1) != CountLabel("PASTE NOTE", 1)
  {
  }
}
