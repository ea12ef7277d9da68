// The shared editing context (MainWindow's lists, the settings the core
// reads, and the undo history as an (actions, index) pair), with the
// operations of MainWindow that change it: selection flags, the three
// sorts, the command interpreter and history, tempo, cursor advance, the
// keyboard ADD NOTE, paste, cut, and bookmark copy and paste.

module Editing {
  import opened Common
  import opened Text
  import opened Notes
  import opened Timing
  import opened Bookmarks
  import opened Sorting
  import opened TimeOrder
  import opened Edits
  import opened Commands

  /** The timing points a command's closures change. */
  function PointsOf(c: Command): set<TimingPoint>
  {
    if c.MovePoint? then {c.point} else {}
  }

  /** The notes captured by the k-th action, none when there is no such action. */
  function CapturedAt(actions: seq<Action>, k: int): seq<Note>
  {
    if 0 <= k < |actions| then CapturedNotes(actions[k].command) else []
  }

  /** The timing point changed by the k-th action, none when there is no such action. */
  function PointsAt(actions: seq<Action>, k: int): set<TimingPoint>
  {
    if 0 <= k < |actions| then PointsOf(actions[k].command) else {}
  }

  /** Every note of `before` outside `captured` still has the lane and time recorded in `values`. */
  predicate OthersUnchanged(before: seq<Note>, values: seq<NoteValue>, captured: seq<Note>)
    reads before`x, before`ms
  {
    |values| == |before| &&
    forall i :: 0 <= i < |before| && before[i] !in captured ==> before[i].x == values[i].x && before[i].ms == values[i].ms
  }

  /** Every recorded command can be interpreted. */
  predicate Interpretable(actions: seq<Action>)
  {
    forall k :: 0 <= k < |actions| ==> WellFormed(actions[k].command)
  }

  /** The note list after a command's redo (forward) or undo closure runs on `before`. */
  function NotesAfter(c: Command, forward: bool, before: seq<Note>): seq<Note>
    reads before`ms, CapturedNotes(c)`ms, RemoveAll(before, CapturedNotes(c))`ms
  {
    match c
    case AddNotes(ns) => if forward then ByTime(before + ns) else ByTime(RemoveAll(before, ns))
    case PasteNotes(ns) => if forward then ByTime(before + ns) else ByTime(RemoveAll(before, ns))
    case CutNotes(ns) => if forward then ByTime(RemoveAll(before, ns)) else ByTime(before + ns)
    case SetTimes(_, _, _) => ByTime(before)
    case _ => before
  }

  /** The timing point list after a command runs on `before`: only MOVE POINT re-sorts it. */
  function PointsAfter(c: Command, before: seq<TimingPoint>): seq<TimingPoint>
    reads before
  {
    if c.MovePoint? then PointsByTime(before) else before
  }

  /** The Selected flags of ns, in order. */
  function Flags(ns: seq<Note>): (fs: seq<bool>)
    reads ns`selected
    ensures |fs| == |ns|
    ensures forall i :: 0 <= i < |ns| ==> fs[i] == ns[i].selected
  {
    if ns == [] then [] else [ns[0].selected] + Flags(ns[1..])
  }

  /**
   * The state a command's closure starts from, as far as its effect is
   * stated against it: the note list and each note's lane and time, the
   * timing points, the lanes, times and flags of the captured notes, and
   * the selection.
   */
  datatype Before = Before(notes: seq<Note>, values: seq<NoteValue>, points: seq<TimingPoint>,
                           captured: seq<NoteValue>, flags: seq<bool>, selected: seq<Note>, selectedPoint: TimingPoint?)

  /**
   * What a command's closures do to the fields of the objects they
   * captured, vs and flags being those notes' values and flags before.
   */
  predicate FieldsApplied(c: Command, forward: bool, vs: seq<NoteValue>, flags: seq<bool>)
    requires WellFormed(c)
    reads CapturedNotes(c), PointsOf(c)
  {
    match c
    case MirrorNotes(ns) =>
      |vs| == |ns| && forall i :: 0 <= i < |ns| ==> ns[i].x == Mirrored(vs[i].x) && ns[i].ms == vs[i].ms
    case SetLanes(ns, xs0, xs1) =>
      |vs| == |ns| && forall i :: 0 <= i < |ns| ==> ns[i].x == (if forward then xs1[i] else xs0[i]) && ns[i].ms == vs[i].ms
    case SetTimes(ns, ms0, ms1) =>
      |vs| == |ns| && forall i :: 0 <= i < |ns| ==> ns[i].ms == (if forward then ms1[i] else ms0[i]) && ns[i].x == vs[i].x
    case MovePoint(p, ms0, ms1) =>
      p.ms == if forward then ms1 else ms0
    case PasteNotes(ns) =>
      |vs| == |ns| && forall i :: 0 <= i < |ns| ==> ns[i].x == vs[i].x && ns[i].ms == vs[i].ms
    case _ =>
      var ns := CapturedNotes(c);
      |vs| == |ns| && |flags| == |ns| &&
      forall i :: 0 <= i < |ns| ==> ns[i].x == vs[i].x && ns[i].ms == vs[i].ms && ns[i].selected == flags[i]
  }

  /** Removing notes one by one leaves only notes of the list. */
  lemma RemoveAllIn(s: seq<Note>, xs: seq<Note>)
    ensures forall n :: n in RemoveAll(s, xs) ==> n in s
  {
    RemoveAllMultiset(s, xs);
    forall n | n in RemoveAll(s, xs) ensures n in s {
      assert n in multiset(RemoveAll(s, xs));
    }
  }

  /** SetTempo's mapping from the slider value to the playback tempo. */
  function TempoFor(v: real): (r: real)
    ensures v <= 0.9 ==> r == v + 0.1
    ensures v > 0.9 ==> r == 1.0 + 2.0 * (v - 0.9)
  {
    var a := MinReal(v, 0.9);
    var b := (v - a) * 2.0;
    a + b + 0.1
  }

  /** The slider mapping is strictly increasing, so different slider values give different tempos. */
  lemma TempoForIncreasing(v: real, w: real)
    requires v < w
    ensures TempoFor(v) < TempoFor(w)
  {
  }

  class Editor {
    var notes: seq<Note>
    var selectedNotes: seq<Note>
    var timingPoints: seq<TimingPoint>
    var selectedPoint: TimingPoint?
    var bookmarks: seq<Bookmark>
    var tempo: real
    var zoom: real
    var fileName: Option<string>
    var soundId: string
    /** Settings "currentTime": its value and its maximum (the song length). */
    var currentTime: real
    var currentTimeMax: real
    var beatDivisor: real
    var exportOffset: real
    /** The undo history: recorded actions and the index of the last applied one. */
    var actions: seq<Action>
    var index: int

    constructor ()
      ensures notes == [] && selectedNotes == [] && timingPoints == [] && selectedPoint == null && bookmarks == []
      ensures actions == [] && index == -1
    {
      notes := [];
      selectedNotes := [];
      timingPoints := [];
      selectedPoint := null;
      bookmarks := [];
      actions := [];
      index := -1;
    }

    /** The history's index lies in [-1, |actions| - 1] and every recorded command can be interpreted. */
    predicate HistoryValid()
      reads this`actions, this`index
    {
      -1 <= index < |actions| && Interpretable(actions)
    }

    /** Every note's Selected flag says whether it is in SelectedNotes. */
    predicate SelectionSynced()
      reads this`notes, this`selectedNotes, notes`selected, selectedNotes`selected
    {
      (forall n :: n in notes ==> (n.selected <==> n in selectedNotes)) &&
      (forall n :: n in selectedNotes ==> n.selected)
    }

    // -------------------------------------------------------------------
    // Selection flags and sorting

    /** UpdateSelection: clear every note's flag, then set the flag of every selected note. */
    method UpdateSelection()
      modifies notes`selected, selectedNotes`selected
      ensures SelectionSynced()
    {
      var i := 0;
      while i < |notes|
        invariant 0 <= i <= |notes|
        invariant forall j :: 0 <= j < i ==> !notes[j].selected
      {
        notes[i].selected := false;
        i := i + 1;
      }
      i := 0;
      while i < |selectedNotes|
        invariant 0 <= i <= |selectedNotes|
        invariant forall j :: 0 <= j < i ==> selectedNotes[j].selected
        invariant forall n :: n in notes ==> (n.selected <==> n in selectedNotes[..i])
      {
        selectedNotes[i].selected := true;
        assert selectedNotes[..i + 1] == selectedNotes[..i] + [selectedNotes[i]];
        i := i + 1;
      }
      assert selectedNotes[..|selectedNotes|] == selectedNotes;
    }

    /** SortNotes: the notes in stable time order. */
    method SortNotes()
      modifies this`notes
      ensures notes == ByTime(old(notes))
    {
      notes := ByTime(notes);
    }

    /** SortTimings: the timing points in stable time order. */
    method SortTimings()
      modifies this`timingPoints
      ensures timingPoints == PointsByTime(old(timingPoints))
    {
      timingPoints := PointsByTime(timingPoints);
    }

    /** SortBookmarks: the bookmarks in stable start-time order. */
    method SortBookmarks()
      modifies this`bookmarks
      ensures bookmarks == BookmarksByTime(old(bookmarks))
    {
      bookmarks := BookmarksByTime(bookmarks);
    }

    // -------------------------------------------------------------------
    // The command interpreter

    /** One Notes.Remove per note of ns, in order. */
    method RemoveEach(ns: seq<Note>)
      modifies this`notes
      ensures notes == RemoveAll(old(notes), ns)
      ensures forall i :: 0 <= i < |notes| ==> notes[i] in old(notes)
    {
      var i := 0;
      while i < |ns|
        invariant 0 <= i <= |ns|
        invariant notes == RemoveAll(old(notes), ns[..i])
      {
        RemoveAllSnoc(old(notes), ns[..i], ns[i]);
        assert ns[..i + 1] == ns[..i] + [ns[i]];
        notes := RemoveFirst(notes, ns[i]);
        i := i + 1;
      }
      assert ns[..|ns|] == ns;
      RemoveAllIn(old(notes), ns);
    }

    /** Notes.AddRange(ns), then SortNotes. */
    method AddToNotes(ns: seq<Note>)
      modifies this`notes
      ensures notes == ByTime(old(notes) + ns)
    {
      notes := notes + ns;
      SortNotes();
    }

    /** The notes removed one by one, then SortNotes. */
    method RemoveFromNotes(ns: seq<Note>)
      modifies this`notes
      ensures notes == ByTime(RemoveAll(old(notes), ns))
    {
      RemoveEach(ns);
      SortNotes();
    }

    /** After a sort, the selection flags still agree with the selection. */
    lemma SyncedAfterSort(before: seq<Note>)
      requires multiset(notes) == multiset(before)
      requires forall n :: n in before ==> (n.selected <==> n in selectedNotes)
      requires forall n :: n in selectedNotes ==> n.selected
      ensures SelectionSynced()
    {
      forall n | n in notes ensures n in before {
        assert n in multiset(notes);
      }
    }

    /** PASTE redo: select the pasted notes, add them, update the flags, sort. */
    method PasteForward(ns: seq<Note>)
      modifies this`notes, this`selectedNotes, this`selectedPoint, notes`selected, ns`selected
      ensures selectedNotes == ns && selectedPoint == null
      ensures notes == ByTime(old(notes) + ns)
      ensures SelectionSynced()
    {
      selectedNotes := ns;
      selectedPoint := null;
      notes := notes + ns;
      UpdateSelection();
      ghost var before := notes;
      SortNotes();
      ByTimeSortsStably(before, 0);
      SyncedAfterSort(before);
    }

    /** PASTE undo: clear the selection, remove the pasted notes, update the flags, sort. */
    method PasteBackward(ns: seq<Note>)
      modifies this`notes, this`selectedNotes, this`selectedPoint, notes`selected
      ensures selectedNotes == [] && selectedPoint == null
      ensures notes == ByTime(RemoveAll(old(notes), ns))
      ensures SelectionSynced()
    {
      selectedNotes := [];
      selectedPoint := null;
      RemoveEach(ns);
      UpdateSelection();
      ghost var before := notes;
      SortNotes();
      ByTimeSortsStably(before, 0);
      SyncedAfterSort(before);
    }

    /** MOVE POINT: the point gets time ms, then SortTimings. */
    method SetPointTime(p: TimingPoint, ms: int)
      modifies this`timingPoints, p`ms
      ensures p.ms == ms
      ensures timingPoints == PointsByTime(old(timingPoints))
    {
      p.ms := ms;
      SortTimings();
    }

    /** The state a closure of c starts from. */
    function Snapshot(c: Command): Before
      reads this`notes, this`timingPoints, this`selectedNotes, this`selectedPoint, notes, CapturedNotes(c)
    {
      Before(notes, Values(notes), timingPoints, Values(CapturedNotes(c)), Flags(CapturedNotes(c)), selectedNotes, selectedPoint)
    }

    /** What a command's closures do to the selection: only PASTE touches it. */
    predicate SelectionApplied(c: Command, forward: bool, b: Before)
      reads this`notes, this`selectedNotes, this`selectedPoint, notes`selected, selectedNotes`selected
    {
      if c.PasteNotes? then
        selectedNotes == (if forward then c.pasted else []) && selectedPoint == null && SelectionSynced()
      else
        selectedNotes == b.selected && selectedPoint == b.selectedPoint
    }

    /**
     * The whole effect of running a command's redo (forward) or undo
     * closure from the state b: the new note and point lists, the captured
     * objects' new fields, the selection, and no other note's lane or time
     * changed.
     */
    predicate Applied(c: Command, forward: bool, b: Before)
      requires WellFormed(c)
      reads this`notes, this`timingPoints, this`selectedNotes, this`selectedPoint, notes`selected, selectedNotes`selected,
        b.notes`x, b.notes`ms, CapturedNotes(c), RemoveAll(b.notes, CapturedNotes(c))`ms, b.points, PointsOf(c)
    {
      && notes == NotesAfter(c, forward, b.notes)
      && timingPoints == PointsAfter(c, b.points)
      && FieldsApplied(c, forward, b.captured, b.flags)
      && SelectionApplied(c, forward, b)
      && OthersUnchanged(b.notes, b.values, CapturedNotes(c))
    }

    /** The interpreter for the commands that add or remove notes. */
    method ApplyListEdit(c: Command, forward: bool)
      requires WellFormed(c) && (c.AddNotes? || c.PasteNotes? || c.CutNotes?)
      modifies this`notes, this`selectedNotes, this`selectedPoint, notes`selected, CapturedNotes(c)`selected
      ensures Applied(c, forward, old(Snapshot(c)))
    {
      if c.PasteNotes? {
        ApplyPaste(c, forward);
      } else {
        ApplyAddOrCut(c, forward);
      }
    }

    /** ADD NOTE and CUT NOTES: the notes are added or removed, then sorted; no field changes. */
    method ApplyAddOrCut(c: Command, forward: bool)
      requires WellFormed(c) && (c.AddNotes? || c.CutNotes?)
      modifies this`notes
      ensures Applied(c, forward, old(Snapshot(c)))
    {
      var ns := CapturedNotes(c);
      if forward == c.AddNotes? { AddToNotes(ns); } else { RemoveFromNotes(ns); }
    }

    /** PASTE NOTES: the notes are added or removed and the selection follows them. */
    method ApplyPaste(c: Command, forward: bool)
      requires WellFormed(c) && c.PasteNotes?
      modifies this`notes, this`selectedNotes, this`selectedPoint, notes`selected, c.pasted`selected
      ensures Applied(c, forward, old(Snapshot(c)))
    {
      if forward { PasteForward(c.pasted); } else { PasteBackward(c.pasted); }
    }

    /** The interpreter for the commands that set lanes or times. */
    method ApplyFieldEdit(c: Command, forward: bool)
      requires WellFormed(c) && !(c.AddNotes? || c.PasteNotes? || c.CutNotes?)
      modifies this`notes, this`timingPoints, CapturedNotes(c), PointsOf(c)
      ensures Applied(c, forward, old(Snapshot(c)))
    {
      if c.MirrorNotes? || c.SetLanes? {
        ApplyLaneEdit(c, forward);
      } else if c.SetTimes? {
        ApplyTimeEdit(c, forward);
      } else {
        ApplyPointEdit(c, forward);
      }
    }

    /** MIRROR and SET LANES: the captured notes' lanes change, nothing is re-sorted. */
    method ApplyLaneEdit(c: Command, forward: bool)
      requires WellFormed(c) && (c.MirrorNotes? || c.SetLanes?)
      modifies CapturedNotes(c)
      ensures Applied(c, forward, old(Snapshot(c)))
    {
      match c
      case MirrorNotes(ns) =>
        MirrorLanes(ns);
      case SetLanes(ns, xs0, xs1) =>
        AssignLanes(ns, if forward then xs1 else xs0);
    }

    /** The track's MOVE NOTE: the captured notes' times change, then the notes are sorted. */
    method ApplyTimeEdit(c: Command, forward: bool)
      requires WellFormed(c) && c.SetTimes?
      modifies this`notes, CapturedNotes(c)
      ensures Applied(c, forward, old(Snapshot(c)))
    {
      AssignTimes(c.timesOf, if forward then c.timesAfter else c.timesBefore);
      SortNotes();
    }

    /** MOVE POINT: the point's time changes, then the points are sorted. */
    method ApplyPointEdit(c: Command, forward: bool)
      requires c.MovePoint?
      modifies this`timingPoints, PointsOf(c)
      ensures Applied(c, forward, old(Snapshot(c)))
    {
      SetPointTime(c.point, if forward then c.pointAfter else c.pointBefore);
    }

    /** The interpreter: run the redo (forward) or undo closure of a command. */
    method Apply(c: Command, forward: bool)
      requires WellFormed(c)
      modifies this`notes, this`selectedNotes, this`selectedPoint, this`timingPoints, notes`selected, CapturedNotes(c), PointsOf(c)
      ensures Applied(c, forward, old(Snapshot(c)))
    {
      if c.AddNotes? || c.PasteNotes? || c.CutNotes? {
        ApplyListEdit(c, forward);
      } else {
        ApplyFieldEdit(c, forward);
      }
    }

    // -------------------------------------------------------------------
    // The history

    /**
     * UndoRedoManager.Add(label, undo, redo, apply): drop the actions after
     * the index, append, point the index at the new action and, when
     * `apply`, run its redo.
     */
    method Record(a: Action, apply: bool)
      requires HistoryValid() && WellFormed(a.command)
      modifies this`actions, this`index, this`notes, this`selectedNotes, this`selectedPoint, this`timingPoints, notes`selected,
        CapturedNotes(a.command), PointsOf(a.command)
      ensures HistoryValid()
      ensures actions == old(actions[..index + 1]) + [a] && index == |actions| - 1
      ensures apply ==> Applied(a.command, true, old(Snapshot(a.command)))
      ensures !apply ==> notes == old(notes) && selectedNotes == old(selectedNotes) && timingPoints == old(timingPoints)
    {
      ghost var b := Snapshot(a.command);
      Push(a);
      assert Snapshot(a.command) == b;
      if apply {
        ghost var acts, idx := actions, index;
        assert HistoryValid();
        Apply(a.command, true);
        assert actions == acts && index == idx;
      }
    }

    /** The history part of Add: drop the actions after the index, append, point the index at it. */
    method Push(a: Action)
      requires HistoryValid() && WellFormed(a.command)
      modifies this`actions, this`index
      ensures HistoryValid()
      ensures actions == old(actions[..index + 1]) + [a] && index == |actions| - 1
    {
      actions := actions[..index + 1] + [a];
      index := |actions| - 1;
    }

    /** Undo: when an action is applied, run its undo closure and step the index back. */
    method Undo()
      requires HistoryValid()
      modifies this`index, this`notes, this`selectedNotes, this`selectedPoint, this`timingPoints, notes`selected,
        CapturedAt(actions, index), PointsAt(actions, index)
      ensures HistoryValid() && actions == old(actions)
      ensures old(index) < 0 ==> index == old(index) && notes == old(notes) && timingPoints == old(timingPoints)
      ensures old(index) >= 0 ==> index == old(index) - 1 && Applied(actions[old(index)].command, false, old(Snapshot(actions[index].command)))
    {
      if index >= 0 {
        var c := actions[index].command;
        ghost var b := Snapshot(c);
        index := index - 1;
        assert Snapshot(c) == b;
        Apply(c, false);
      }
    }

    /** Redo: when an action lies after the index, step the index forward and run its redo closure. */
    method Redo()
      requires HistoryValid()
      modifies this`index, this`notes, this`selectedNotes, this`selectedPoint, this`timingPoints, notes`selected,
        CapturedAt(actions, index + 1), PointsAt(actions, index + 1)
      ensures HistoryValid() && actions == old(actions)
      ensures old(index) >= |actions| - 1 ==> index == old(index) && notes == old(notes) && timingPoints == old(timingPoints)
      ensures old(index) < |actions| - 1 ==> index == old(index) + 1 && Applied(actions[index].command, true, old(Snapshot(actions[index + 1].command)))
    {
      if index < |actions| - 1 {
        index := index + 1;
        Apply(actions[index].command, true);
      }
    }

    /** Record ADD NOTE (or TWEEN) over fresh notes and run its redo, which ApplyAddOrCut shows is AddToNotes. */
    method RecordAdd(title: string, ns: seq<Note>)
      requires HistoryValid() && Distinct(ns)
      modifies this`actions, this`index, this`notes, this`selectedNotes, this`selectedPoint, this`timingPoints, notes`selected, ns
      ensures HistoryValid()
      ensures actions == old(actions[..index + 1]) + [Action(title, AddNotes(ns))] && index == |actions| - 1
      ensures notes == ByTime(old(notes) + ns)
      ensures selectedNotes == old(selectedNotes) && selectedPoint == old(selectedPoint) && timingPoints == old(timingPoints)
      ensures forall n :: n in ns ==> n.x == old(n.x) && n.ms == old(n.ms) && n.selected == old(n.selected)
      ensures forall m :: m in old(notes) ==> m.selected == old(m.selected)
    {
      Push(Action(title, AddNotes(ns)));
      AddToNotes(ns);
    }

    /** Record PASTE NOTE(S) over fresh notes and apply it. */
    method RecordPaste(title: string, ns: seq<Note>)
      requires HistoryValid() && Distinct(ns)
      modifies this`actions, this`index, this`notes, this`selectedNotes, this`selectedPoint, this`timingPoints, notes`selected, ns
      ensures HistoryValid()
      ensures actions == old(actions[..index + 1]) + [Action(title, PasteNotes(ns))] && index == |actions| - 1
      ensures notes == ByTime(old(notes) + ns)
      ensures selectedNotes == ns && selectedPoint == null && SelectionSynced()
      ensures forall i :: 0 <= i < |ns| ==> ns[i].x == old(ns[i].x)
      ensures Times(ns) == old(Times(ns))
    {
      Record(Action(title, PasteNotes(ns)), true);
      assert forall i :: 0 <= i < |ns| ==> Times(ns)[i] == old(Times(ns))[i];
    }

    /** Record CUT NOTE(S) and apply it. */
    method RecordCut(title: string, ns: seq<Note>)
      requires HistoryValid() && Distinct(ns)
      modifies this`actions, this`index, this`notes, this`selectedNotes, this`selectedPoint, this`timingPoints, notes`selected, ns
      ensures HistoryValid()
      ensures actions == old(actions[..index + 1]) + [Action(title, CutNotes(ns))] && index == |actions| - 1
      ensures notes == ByTime(RemoveAll(old(notes), ns))
      ensures forall i :: 0 <= i < |notes| ==> notes[i] in old(notes)
      ensures selectedNotes == old(selectedNotes) && selectedPoint == old(selectedPoint) && timingPoints == old(timingPoints)
    {
      ghost var kept := RemoveAll(notes, ns);
      Record(Action(title, CutNotes(ns)), true);
      RemoveAllIn(old(notes), ns);
      ByTimeSortsStably(kept, 0);
      forall n | n in notes ensures n in old(notes) {
        assert n in multiset(notes);
      }
    }

    // -------------------------------------------------------------------
    // Keyboard commands

    /** Escape: empty the selection, update the flags, drop the selected point. */
    method ClearSelection()
      modifies this`selectedNotes, this`selectedPoint, notes`selected
      ensures selectedNotes == [] && selectedPoint == null
      ensures forall n :: n in notes ==> !n.selected
    {
      selectedNotes := [];
      UpdateSelection();
      selectedPoint := null;
    }

    /** selectAll: drop the selected point and select every note. */
    method SelectAll()
      modifies this`selectedNotes, this`selectedPoint, notes`selected
      ensures selectedNotes == notes && selectedPoint == null
      ensures forall n :: n in notes ==> n.selected
    {
      selectedPoint := null;
      selectedNotes := notes;
      UpdateSelection();
    }

    /** SetTempo: the playback tempo for a slider value. */
    method SetTempo(v: real)
      modifies this`tempo
      ensures tempo == TempoFor(v)
    {
      var tempoA := MinReal(v, 0.9);
      var tempoB := (v - tempoA) * 2.0;
      tempo := tempoA + tempoB + 0.1;
    }

    /**
     * Advance: when a tempo is in force at the current time, move the
     * current time one beat forward, or back when `reverse`; infStep is what
     * the cast of an infinite interval gives.
     */
    method Advance(reverse: bool, infStep: int)
      requires beatDivisor > -1.0
      modifies this`currentTime
      ensures CurrentBpm(Tempos(timingPoints), old(currentTime), false).bpm > 0.0 ==>
        currentTime == ClosestBeatScroll(Tempos(timingPoints), old(currentTime), reverse, 1, beatDivisor, currentTimeMax, infStep) as real
      ensures CurrentBpm(Tempos(timingPoints), old(currentTime), false).bpm <= 0.0 ==> currentTime == old(currentTime)
    {
      var point := GetCurrentBpm(timingPoints, currentTime, false);
      if point.bpm > 0.0 {
        var next := GetClosestBeatScroll(timingPoints, currentTime, reverse, 1, beatDivisor, currentTimeMax, infStep);
        currentTime := next as real;
      }
    }

    /**
     * A grid key: a fresh note in lane `lane` at the beat nearest the
     * current time (the current time itself when there is no beat),
     * recorded as ADD NOTE and applied; then Advance when autoAdvance is on.
     */
    method AddNoteAtCursor(lane: int, autoAdvance: bool, infStep: int) returns (n: Note)
      requires HistoryValid() && beatDivisor > -1.0
      modifies this`actions, this`index, this`notes, this`selectedNotes, this`selectedPoint, this`timingPoints, notes`selected, this`currentTime
      ensures fresh(n)
      ensures n.x == lane as real && !n.selected
      ensures var beat := old(ClosestBeat(Tempos(timingPoints), currentTime, false, beatDivisor, currentTimeMax));
        n.ms == if beat >= 0 then beat else old(Trunc(currentTime))
      ensures actions == old(actions[..index + 1]) + [Action("ADD NOTE", AddNotes([n]))] && index == |actions| - 1
      ensures HistoryValid()
      ensures notes == ByTime(old(notes) + [n])
      ensures selectedNotes == old(selectedNotes) && selectedPoint == old(selectedPoint) && timingPoints == old(timingPoints)
      ensures forall m :: m in old(notes) ==> m.selected == old(m.selected)
      ensures !autoAdvance ==> currentTime == old(currentTime)
      ensures autoAdvance && CurrentBpm(Tempos(timingPoints), old(currentTime), false).bpm > 0.0 ==>
        currentTime == ClosestBeatScroll(Tempos(timingPoints), old(currentTime), false, 1, beatDivisor, currentTimeMax, infStep) as real
      ensures autoAdvance && CurrentBpm(Tempos(timingPoints), old(currentTime), false).bpm <= 0.0 ==> currentTime == old(currentTime)
    {
      n := PlaceNote(lane);
      ghost var added := old(notes) + [n];
      ghost var after := notes;
      assert after == ByTime(added);
      label Placed:
      if autoAdvance {
        Advance(false, infStep);
      }
      assert forall i :: 0 <= i < |added| ==> added[i].ms == old@Placed(added[i].ms);
      assert ByTime(added) == after;
    }

    /** The ADD NOTE part of a grid key, before the cursor advances. */
    method PlaceNote(lane: int) returns (n: Note)
      requires HistoryValid() && beatDivisor > -1.0
      modifies this`actions, this`index, this`notes, this`selectedNotes, this`selectedPoint, this`timingPoints, notes`selected
      ensures fresh(n)
      ensures n.x == lane as real && !n.selected
      ensures var beat := old(ClosestBeat(Tempos(timingPoints), currentTime, false, beatDivisor, currentTimeMax));
        n.ms == if beat >= 0 then beat else old(Trunc(currentTime))
      ensures actions == old(actions[..index + 1]) + [Action("ADD NOTE", AddNotes([n]))] && index == |actions| - 1
      ensures HistoryValid()
      ensures notes == ByTime(old(notes) + [n])
      ensures selectedNotes == old(selectedNotes) && selectedPoint == old(selectedPoint) && timingPoints == old(timingPoints)
      ensures forall m :: m in old(notes) ==> m.selected == old(m.selected)
    {
      var ms := GetClosestBeat(timingPoints, currentTime, false, beatDivisor, currentTimeMax);
      n := new Note(lane as real, if ms >= 0 then ms else Trunc(currentTime));
      RecordAdd("ADD NOTE", [n]);
    }

    /**
     * paste: the clipboard's notes arrive as fresh notes; they are moved so
     * the earliest sits at (long)currentTime, scaled when applyOnPaste is on
     * and the scale box parses, and recorded as PASTE NOTE or PASTE NOTES
     * (plural only for several notes, the corrected label) and applied.
     * Nothing happens when the clipboard holds no notes.
     */
    method Paste(copied: seq<NoteValue>, applyOnPaste: bool, scaleText: string) returns (ns: seq<Note>)
      requires HistoryValid()
      modifies this`actions, this`index, this`notes, this`selectedNotes, this`selectedPoint, this`timingPoints, notes`selected
      ensures |copied| == 0 ==> ns == [] && actions == old(actions) && notes == old(notes)
      ensures |copied| > 0 ==> |ns| == |copied| && Distinct(ns) && (forall i :: 0 <= i < |ns| ==> fresh(ns[i]))
      ensures |copied| > 0 ==> Times(ns) == PastedTimes(TimesOf(copied), Trunc(old(currentTime)))
      ensures |copied| > 0 ==> forall i :: 0 <= i < |ns| ==>
        ns[i].x == if applyOnPaste && ParseDecimal(scaleText).Some? then Scaled(copied[i].x, ParseDecimal(scaleText).value) else copied[i].x
      ensures |copied| > 0 ==> actions == old(actions[..index + 1]) + [Action(CountLabel("PASTE NOTE", |ns|), PasteNotes(ns))]
      ensures |copied| > 0 ==> selectedNotes == ns && notes == ByTime(old(notes) + ns) && SelectionSynced()
      ensures HistoryValid()
    {
      ns := [];
      if |copied| > 0 {
        ns := ClipboardNotes(copied, Trunc(currentTime), applyOnPaste, scaleText);
        ghost var times, vs := Times(ns), Values(ns);
        RecordPaste(CountLabel("PASTE NOTE", |ns|), ns);
        assert Times(ns) == times;
        assert forall i :: 0 <= i < |ns| ==> ns[i].x == vs[i].x;
      }
    }

    /**
     * cut: when notes are selected, record CUT NOTE(S) over them and apply
     * it (removing them), then clear the selection.
     */
    method Cut() returns (copied: seq<Note>)
      requires HistoryValid() && Distinct(selectedNotes)
      modifies this`actions, this`index, this`notes, this`selectedNotes, this`selectedPoint, this`timingPoints, notes`selected, selectedNotes
      ensures copied == old(selectedNotes)
      ensures |copied| == 0 ==> actions == old(actions) && notes == old(notes) && selectedNotes == old(selectedNotes)
      ensures |copied| > 0 ==> actions == old(actions[..index + 1]) + [Action(CountLabel("CUT NOTE", |copied|), CutNotes(copied))]
      ensures |copied| > 0 ==> notes == ByTime(RemoveAll(old(notes), copied)) && selectedNotes == [] && selectedPoint == null
      ensures |copied| > 0 ==> forall n :: n in notes ==> !n.selected
      ensures HistoryValid()
    {
      copied := selectedNotes;
      if |copied| > 0 {
        RecordCut(CountLabel("CUT NOTE", |copied|), copied);
        ghost var kept := RemoveAll(old(notes), copied);
        ghost var after := notes;
        assert after == ByTime(kept);
        label Cut:
        ClearSelection();
        assert forall i :: 0 <= i < |kept| ==> kept[i].ms == old@Cut(kept[i].ms);
        assert ByTime(kept) == after;
      }
    }

    /**
     * delete, with notes selected: record DELETE NOTE(S) over them and apply
     * it (removing them), then clear the selection. With no note selected
     * nothing is recorded here.
     */
    method DeleteNotes() returns (deleted: seq<Note>)
      requires HistoryValid() && Distinct(selectedNotes)
      modifies this`actions, this`index, this`notes, this`selectedNotes, this`selectedPoint, this`timingPoints, notes`selected, selectedNotes
      ensures deleted == old(selectedNotes)
      ensures |deleted| == 0 ==> actions == old(actions) && notes == old(notes) && selectedNotes == old(selectedNotes)
      ensures |deleted| > 0 ==> actions == old(actions[..index + 1]) + [Action(CountLabel("DELETE NOTE", |deleted|), CutNotes(deleted))]
      ensures |deleted| > 0 ==> notes == ByTime(RemoveAll(old(notes), deleted)) && selectedNotes == [] && selectedPoint == null
      ensures |deleted| > 0 ==> forall n :: n in notes ==> !n.selected
      ensures HistoryValid()
    {
      deleted := selectedNotes;
      if |deleted| > 0 {
        RecordCut(CountLabel("DELETE NOTE", |deleted|), deleted);
        ghost var kept := RemoveAll(old(notes), deleted);
        ghost var after := notes;
        assert after == ByTime(kept);
        label Deleted:
        ClearSelection();
        assert forall i :: 0 <= i < |kept| ==> kept[i].ms == old@Deleted(kept[i].ms);
        assert ByTime(kept) == after;
      }
    }

    /**
     * The hFlip key: record MIRROR over the selection and apply it, moving
     * every selected note to lane 4 - X. Unlike the panel's button it
     * records the action even when nothing is selected.
     */
    method MirrorKey()
      requires HistoryValid() && Distinct(selectedNotes)
      modifies this`actions, this`index, this`notes, this`selectedNotes, this`selectedPoint, this`timingPoints, notes`selected, selectedNotes
      ensures HistoryValid()
      ensures notes == old(notes) && selectedNotes == old(selectedNotes)
      ensures actions == old(actions[..index + 1]) + [Action("MIRROR", MirrorNotes(selectedNotes))] && index == |actions| - 1
      ensures forall i :: 0 <= i < |selectedNotes| ==> selectedNotes[i].x == Mirrored(old(selectedNotes[i].x))
    {
      Record(Action("MIRROR", MirrorNotes(selectedNotes)), true);
    }

    // -------------------------------------------------------------------
    // Bookmarks on the clipboard

    /** CopyBookmarks: the text for the clipboard, None when there are no bookmarks. */
    method CopyBookmarks() returns (clip: Option<string>)
      ensures clip == CopyText(bookmarks)
    {
      var data: seq<string> := [];
      var i := 0;
      while i < |bookmarks|
        invariant 0 <= i <= |bookmarks|
        invariant data == Lines(bookmarks[..i])
      {
        var b := bookmarks[i];
        var line := if b.ms != b.endMs then IntToString(b.ms) + "-" + IntToString(b.endMs) + " ~ " + b.text
                    else IntToString(b.ms) + " ~ " + b.text;
        assert bookmarks[..i + 1] == bookmarks[..i] + [b];
        data := data + [line];
        i := i + 1;
      }
      assert bookmarks[..|bookmarks|] == bookmarks;
      if |data| == 0 {
        return None;
      }
      clip := Some(Join(data, '\n'));
    }

    /** PasteBookmarks: read the clipboard text line by line; replace the bookmarks when any line reads. */
    method PasteBookmarks(data: string)
      modifies this`bookmarks
      ensures bookmarks == Pasted(old(bookmarks), data)
    {
      var lines := Split(data, '\n');
      var temp: seq<Bookmark> := [];
      var i := 0;
      while i < |lines|
        invariant 0 <= i <= |lines|
        invariant temp == ReadAll(lines[..i])
        invariant bookmarks == old(bookmarks)
      {
        assert lines[..i + 1][..i] == lines[..i];
        var read := ReadPastedLine(lines[i]);
        if read.Some? {
          temp := temp + [read.value];
        }
        i := i + 1;
      }
      assert lines[..|lines|] == lines;
      if |temp| > 0 {
        bookmarks := temp;
      }
    }
  }

  /** The body of PasteBookmarks' loop: one line split at " ~ ", its time part split at "-", the times parsed. */
  method ReadPastedLine(line: string) returns (r: Option<Bookmark>)
    ensures r == ReadLine(line)
  {
    var split := SplitOn(line, " ~ ");
    if |split| != 2 {
      return None;
    }
    var sub := SplitOn(split[0], "-");
    if |sub| == 1 && ParseInt(sub[0]).Some? {
      var ms := ParseInt(sub[0]).value;
      r := Some(Bookmark(split[1], ms, ms));
    } else if |sub| == 2 && ParseInt(sub[0]).Some? && ParseInt(sub[1]).Some? {
      r := Some(Bookmark(split[1], ParseInt(sub[0]).value, ParseInt(sub[1]).value));
    } else {
      r := None;
    }
  }

  /**
   * The notes a paste inserts: fresh copies of the clipboard's notes, moved
   * so that the earliest sits at `base`, with lanes scaled when applyOnPaste
   * is on and the scale text parses.
   */
  method ClipboardNotes(copied: seq<NoteValue>, base: int, applyOnPaste: bool, scaleText: string) returns (ns: seq<Note>)
    requires |copied| > 0
    ensures |ns| == |copied| && Distinct(ns) && (forall i :: 0 <= i < |ns| ==> fresh(ns[i]))
    ensures Times(ns) == PastedTimes(TimesOf(copied), base)
    ensures forall i :: 0 <= i < |ns| ==>
      ns[i].x == if applyOnPaste && ParseDecimal(scaleText).Some? then Scaled(copied[i].x, ParseDecimal(scaleText).value) else copied[i].x
    ensures forall i :: 0 <= i < |ns| ==> !ns[i].selected
  {
    ns := NotesOf(copied);
    forall i | 0 <= i < |ns| ensures Times(ns)[i] == TimesOf(copied)[i] && ns[i].x == copied[i].x {
      assert ValueOf(ns[i]) == copied[i];
    }
    assert Times(ns) == TimesOf(copied);
    ShiftToTime(ns, base);
    ghost var shifted := Times(ns);
    if applyOnPaste {
      match ParseDecimal(scaleText)
      case Some(scale) => ScaleLanes(ns, scale);
      case None =>
    }
    assert forall i :: 0 <= i < |ns| ==> Times(ns)[i] == shifted[i];
  }

  /** The times of note values, in order. */
  function TimesOf(vs: seq<NoteValue>): (ms: seq<int>)
    ensures |ms| == |vs|
    ensures forall i :: 0 <= i < |vs| ==> ms[i] == vs[i].ms
  {
    seq(|vs|, i requires 0 <= i < |vs| => vs[i].ms)
  }
}
