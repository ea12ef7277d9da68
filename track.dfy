// Mouse input on the timeline track (GuiTrack): a click picks up the
// hovered note (updating the selection) or timing point, or grabs the track
// itself; dragging moves the selected notes or the point in time, snapping
// to beats, or scrubs the current time; releasing a moved note or point
// records MOVE NOTE(S) or MOVE POINT without re-applying it. The screen
// geometry (the cursor's time, the width of one second) is an input, and
// the music player is told to pause or play through the results.

module TrackInput {
  import opened Common
  import opened Notes
  import opened Timing
  import opened TimeOrder
  import opened Edits
  import opened Commands
  import opened Selection
  import opened Editing

  /** The drag start of every note of the list, in order. */
  function DragStarts(ns: seq<Note>): (ms: seq<int>)
    reads ns
    ensures |ms| == |ns|
    ensures forall i :: 0 <= i < |ns| ==> ms[i] == ns[i].dragStartMs
  {
    seq(|ns|, i requires 0 <= i < |ns| reads ns => ns[i].dragStartMs)
  }

  /**
   * The snap distance in pixels: a subdivided beat's width divided by 1.75,
   * clamped to [1, 12]. A zero BPM or divisor divides by zero, which in
   * floating point gives an infinite width and so one end of the clamp.
   */
  function SnapThreshold(bpm: real, divisor: real, cellStep: real): (r: real)
    requires cellStep > 0.0
    ensures 1.0 <= r <= 12.0
    ensures bpm > 0.0 && divisor > 0.0 ==> r == ClampReal(60.0 / bpm * cellStep / divisor / 1.75, 1.0, 12.0)
  {
    if bpm == 0.0 then (if divisor >= 0.0 then 12.0 else 1.0)
    else
      var stepX := 60.0 / bpm * cellStep;
      if divisor == 0.0 then (if stepX > 0.0 then 12.0 else 1.0)
      else ClampReal(stepX / divisor / 1.75, 1.0, 12.0)
  }

  /** The distance in pixels between two times, one second being 1000 / cellStep pixels apart. */
  function Pixels(a: real, b: real, cellStep: real): real
  {
    AbsReal(a - b) / 1000.0 * cellStep
  }

  /**
   * The note drag's offset: the dragged note's start minus the cursor time,
   * zero while the cursor is within 5 pixels; with a positive tempo at the
   * cursor, replaced by the offset that puts the note on the beat closest
   * to it when that beat is within the snap distance of the cursor.
   */
  function NoteDragOffset(ts: seq<Tempo>, start: int, ms: int, cursorMs: real, cellStep: real, divisor: real, maxMs: real): real
    requires cellStep > 0.0 && divisor > -1.0
  {
    var raw := start as real - cursorMs;
    var offset := if Pixels(start as real, cursorMs, cellStep) <= 5.0 then 0.0 else raw;
    var bpm := CurrentBpm(ts, cursorMs, false).bpm;
    if bpm > 0.0 then
      var snapped := ClosestBeat(ts, ms as real, false, divisor, maxMs);
      if Pixels(snapped as real, cursorMs, cellStep) <= SnapThreshold(bpm, divisor, cellStep)
      then (start - snapped) as real
      else offset
    else offset
  }

  /** When the note drag snaps, the dragged note lands exactly on the snapped beat (inside the song). */
  lemma NoteSnapLandsOnBeat(ts: seq<Tempo>, start: int, ms: int, cursorMs: real, cellStep: real, divisor: real, maxMs: real)
    requires cellStep > 0.0 && divisor > -1.0
    requires CurrentBpm(ts, cursorMs, false).bpm > 0.0
    requires var snapped := ClosestBeat(ts, ms as real, false, divisor, maxMs);
      Pixels(snapped as real, cursorMs, cellStep) <= SnapThreshold(CurrentBpm(ts, cursorMs, false).bpm, divisor, cellStep)
      && 0.0 <= snapped as real <= maxMs
    ensures DraggedTime(start, NoteDragOffset(ts, start, ms, cursorMs, cellStep, divisor, maxMs), maxMs)
      == ClosestBeat(ts, ms as real, false, divisor, maxMs)
  {
    var snapped := ClosestBeat(ts, ms as real, false, divisor, maxMs);
    var offset := (start - snapped) as real;
    assert offset.Floor == start - snapped;
  }

  /** Without a tempo to snap to, a cursor within 5 pixels of the drag start leaves the note where it started. */
  lemma NoteDeadZone(ts: seq<Tempo>, start: int, ms: int, cursorMs: real, cellStep: real, divisor: real, maxMs: real)
    requires cellStep > 0.0 && divisor > -1.0
    requires CurrentBpm(ts, cursorMs, false).bpm <= 0.0
    requires Pixels(start as real, cursorMs, cellStep) <= 5.0 && 0.0 <= start as real <= maxMs
    ensures DraggedTime(start, NoteDragOffset(ts, start, ms, cursorMs, cellStep, divisor, maxMs), maxMs) == start
  {
    assert (0.0).Floor == 0;
  }

  /** With one whole offset and nothing clamped, the drag keeps the distance between any two selected notes. */
  lemma DragKeepsSpacing(a: int, b: int, offset: int, maxMs: real)
    requires 0.0 <= (a - offset) as real <= maxMs && 0.0 <= (b - offset) as real <= maxMs
    ensures DraggedTime(a, offset as real, maxMs) - DraggedTime(b, offset as real, maxMs) == a - b
  {
    assert (offset as real).Floor == offset;
    assert DraggedTime(a, offset as real, maxMs) == a - offset;
    assert DraggedTime(b, offset as real, maxMs) == b - offset;
  }

  /**
   * The time a timing-point drag snaps to: the note nearest the point when
   * it is strictly closer to the cursor than the beat closest to the point
   * (found as when a point is dragged), otherwise that beat. The note comes
   * from the corrected nearest-note search, not the sentinel search as
   * written.
   */
  function PointSnapTarget(ts: seq<Tempo>, noteTimes: seq<int>, pointMs: int, cursorMs: real, divisor: real, maxMs: real): int
    requires divisor > -1.0
  {
    var beat := ClosestBeat(ts, pointMs as real, true, divisor, maxMs);
    var note := NearestNote(noteTimes, pointMs as real);
    if AbsReal(note as real - cursorMs) < AbsReal(beat as real - cursorMs) then note else beat
  }

  /**
   * The point drag's offset: the start minus the cursor time, replaced by
   * the offset onto the snap target when that is within the snap distance,
   * and by the whole start (time zero) when the cursor is within the snap
   * distance of zero.
   */
  function PointDragOffset(ts: seq<Tempo>, noteTimes: seq<int>, start: int, pointMs: int, cursorMs: real,
                           cellStep: real, divisor: real, maxMs: real): real
    requires cellStep > 0.0 && divisor > -1.0
  {
    var threshold := SnapThreshold(CurrentBpm(ts, cursorMs, false).bpm, divisor, cellStep);
    var target := PointSnapTarget(ts, noteTimes, pointMs, cursorMs, divisor, maxMs);
    var offset := if Pixels(target as real, cursorMs, cellStep) <= threshold then (start - target) as real else start as real - cursorMs;
    if Pixels(0.0, cursorMs, cellStep) <= threshold then start as real else offset
  }

  /** A point's time after the drag: the start moved by the offset, capped (only from above) at the song length. */
  function DraggedPointTime(start: int, offset: real, maxMs: real): (r: int)
    ensures maxMs >= 0.0 && start as real - offset >= 0.0 ==> 0 <= r && r as real <= maxMs
  {
    Trunc(MinReal(start as real - offset, maxMs))
  }

  /** A cursor within the snap distance of time zero drops the point at zero. */
  lemma PointSnapsToZero(ts: seq<Tempo>, noteTimes: seq<int>, start: int, pointMs: int, cursorMs: real,
                         cellStep: real, divisor: real, maxMs: real)
    requires cellStep > 0.0 && divisor > -1.0 && maxMs >= 0.0
    requires Pixels(0.0, cursorMs, cellStep) <= SnapThreshold(CurrentBpm(ts, cursorMs, false).bpm, divisor, cellStep)
    ensures DraggedPointTime(start, PointDragOffset(ts, noteTimes, start, pointMs, cursorMs, cellStep, divisor, maxMs), maxMs) == 0
  {
    assert (0.0).Floor == 0;
  }

  /** Away from zero, a snap target within the snap distance is where the point lands (inside the song). */
  lemma PointLandsOnTarget(ts: seq<Tempo>, noteTimes: seq<int>, start: int, pointMs: int, cursorMs: real,
                           cellStep: real, divisor: real, maxMs: real)
    requires cellStep > 0.0 && divisor > -1.0
    requires var threshold := SnapThreshold(CurrentBpm(ts, cursorMs, false).bpm, divisor, cellStep);
      var target := PointSnapTarget(ts, noteTimes, pointMs, cursorMs, divisor, maxMs);
      Pixels(0.0, cursorMs, cellStep) > threshold && Pixels(target as real, cursorMs, cellStep) <= threshold
      && 0.0 <= target as real <= maxMs
    ensures DraggedPointTime(start, PointDragOffset(ts, noteTimes, start, pointMs, cursorMs, cellStep, divisor, maxMs), maxMs)
      == PointSnapTarget(ts, noteTimes, pointMs, cursorMs, divisor, maxMs)
  {
    var target := PointSnapTarget(ts, noteTimes, pointMs, cursorMs, divisor, maxMs);
    assert (target as real).Floor == target;
  }

  /**
   * The time a track drag scrubs to: the grab time moved back by the mouse
   * offset, snapped to the closest beat when a positive tempo is in force
   * there, and clamped to the song.
   */
  function ScrubTime(ts: seq<Tempo>, grabMs: int, offset: real, divisor: real, maxMs: real): (r: real)
    requires divisor > -1.0
    ensures 0.0 <= r && (maxMs >= 0.0 ==> r <= maxMs)
  {
    var t := grabMs as real - offset;
    var snapped := if CurrentBpm(ts, t, false).bpm > 0.0 then ClosestBeat(ts, t, false, divisor, maxMs) as real else t;
    ClampReal(snapped, 0.0, maxMs)
  }

  /** With a positive tempo, the scrubbed time is a beat near the mouse's time (when that beat is inside the song). */
  lemma ScrubSnapsToBeat(ts: seq<Tempo>, grabMs: int, offset: real, divisor: real, maxMs: real)
    requires divisor > -1.0
    requires var t := grabMs as real - offset;
      CurrentBpm(ts, t, false).bpm > 0.0 && 0.0 <= SnappedBeat(CurrentBpm(ts, t, false), t, divisor) as real <= maxMs
    ensures var t := grabMs as real - offset;
      ScrubTime(ts, grabMs, offset, divisor, maxMs) == SnappedBeat(CurrentBpm(ts, t, false), t, divisor) as real
      && AbsReal(ScrubTime(ts, grabMs, offset, divisor, maxMs) - t) <= Interval(CurrentBpm(ts, t, false).bpm, divisor) / 2.0 + 0.5
  {
    var t := grabMs as real - offset;
    ClosestBeatNear(ts, t, false, divisor, maxMs);
  }

  /**
   * What releasing a drag records: MOVE NOTE(S) over the selection, from
   * the drag starts to the present times, when the dragged note moved;
   * otherwise MOVE POINT when the dragged point moved; otherwise nothing.
   */
  function ReleaseAction(note: Note?, point: TimingPoint?, sel: seq<Note>): (r: Option<Action>)
    reads note, point, sel
    ensures r.None? <==> (note == null || note.dragStartMs == note.ms) && (point == null || point.dragStartMs == point.ms)
    ensures r.Some? && Distinct(sel) ==> WellFormed(r.value.command)
    ensures r.Some? && r.value.command.SetTimes? ==>
      r.value.command.timesOf == sel && r.value.title == CountLabel("MOVE NOTE", |sel|)
      && |r.value.command.timesBefore| == |sel| && |r.value.command.timesAfter| == |sel|
      && forall i :: 0 <= i < |sel| ==> r.value.command.timesBefore[i] == sel[i].dragStartMs && r.value.command.timesAfter[i] == sel[i].ms
    ensures r.Some? && r.value.command.MovePoint? ==>
      point != null && r.value == Action("MOVE POINT", MovePoint(point, point.dragStartMs, point.ms))
  {
    if note != null && note.dragStartMs != note.ms then
      Some(Action(CountLabel("MOVE NOTE", |sel|), SetTimes(sel, DragStarts(sel), Times(sel))))
    else if point != null && point.dragStartMs != point.ms then
      Some(Action("MOVE POINT", MovePoint(point, point.dragStartMs, point.ms)))
    else None
  }

  /** The track's drag state. */
  class Track {
    /** What the mouse is over (set while rendering). */
    var hoveringNote: Note?
    var hoveringPoint: TimingPoint?
    var draggingNote: Note?
    var draggingPoint: TimingPoint?
    var draggingTrack: bool
    var rightDraggingTrack: bool
    /** DragStartPoint.X and DragStartMs: where the mouse and the current time were at the click. */
    var dragStartX: real
    var dragStartMs: int
    /** Whether the music was playing when the track was grabbed, to resume on release. */
    var replay: bool

    constructor ()
      ensures hoveringNote == null && hoveringPoint == null && draggingNote == null && draggingPoint == null
      ensures !draggingTrack && !rightDraggingTrack && !replay
    {
      hoveringNote, hoveringPoint := null, null;
      draggingNote, draggingPoint := null, null;
      draggingTrack, rightDraggingTrack := false, false;
      dragStartX, dragStartMs := 0.0, 0;
      replay := false;
    }

    /**
     * Pick up a note: apply the click rules to the selection, update the
     * Selected flags, and let every selected note remember its time as its
     * drag start. No note changes lane or time.
     */
    method SelectForDrag(e: Editor, hovered: Note, shift: bool, ctrl: bool)
      requires Distinct(e.selectedNotes)
      modifies e`selectedNotes, e.notes, e.selectedNotes, hovered
      ensures e.selectedNotes == ClickSelection(old(e.selectedNotes), e.notes, hovered, shift, ctrl)
      ensures Distinct(e.selectedNotes) && e.SelectionSynced()
      ensures forall i :: 0 <= i < |e.selectedNotes| ==> e.selectedNotes[i].dragStartMs == e.selectedNotes[i].ms
      ensures e.notes == old(e.notes) && Values(e.notes) == old(Values(e.notes))
    {
      var selected := ClickSelect(e.selectedNotes, e.notes, hovered, shift, ctrl);
      ClickSelectionSpec(e.selectedNotes, e.notes, hovered, shift, ctrl);
      ClickSelectionFrom(e.selectedNotes, e.notes, hovered, shift, ctrl);
      assert forall i :: 0 <= i < |selected| ==> selected[i] in e.selectedNotes || selected[i] in e.notes || selected[i] == hovered;
      e.selectedNotes := selected;
      e.UpdateSelection();
      MarkDragStart(e.selectedNotes);
    }

    /**
     * The left-click part of OnMouseClick: pick up the hovered note (click
     * rules, flags, drag starts), or else the hovered timing point (which
     * becomes the selected point and remembers its time), or else grab the
     * track, remembering whether to resume playback on release.
     */
    method Grab(e: Editor, replayf: bool, shift: bool, ctrl: bool)
      requires Distinct(e.selectedNotes)
      modifies this`draggingNote, this`draggingPoint, this`replay, e`selectedNotes, e`selectedPoint, e.notes, e.selectedNotes,
        if hoveringNote == null then {} else {hoveringNote}, if hoveringPoint == null then {} else {hoveringPoint}
      ensures Distinct(e.selectedNotes) && e.notes == old(e.notes)
      ensures hoveringNote != null ==>
        && draggingNote == hoveringNote && !replay && draggingPoint == old(draggingPoint)
        && e.selectedNotes == ClickSelection(old(e.selectedNotes), e.notes, hoveringNote, shift, ctrl)
        && e.SelectionSynced()
        && (forall i :: 0 <= i < |e.selectedNotes| ==> e.selectedNotes[i].dragStartMs == e.selectedNotes[i].ms)
        && Values(e.notes) == old(Values(e.notes)) && e.selectedPoint == old(e.selectedPoint)
      ensures hoveringNote == null && hoveringPoint != null ==>
        && draggingPoint == hoveringPoint && e.selectedPoint == hoveringPoint && !replay && draggingNote == old(draggingNote)
        && hoveringPoint.dragStartMs == hoveringPoint.ms && hoveringPoint.ms == old(hoveringPoint.ms)
        && e.selectedNotes == old(e.selectedNotes)
      ensures hoveringNote == null && hoveringPoint == null ==>
        replay == replayf && draggingNote == old(draggingNote) && draggingPoint == old(draggingPoint)
        && e.selectedNotes == old(e.selectedNotes) && e.selectedPoint == old(e.selectedPoint)
    {
      replay := false;
      if hoveringNote != null {
        draggingNote := hoveringNote;
        SelectForDrag(e, hoveringNote, shift, ctrl);
      } else if hoveringPoint != null {
        draggingPoint := hoveringPoint;
        e.selectedPoint := hoveringPoint;
        draggingPoint.dragStartMs := draggingPoint.ms;
      } else {
        replay := replayf;
      }
    }

    /**
     * The right-click part of OnMouseClick: release any drag (as
     * OnMouseUp); the track is then not dragged, a right drag starts when
     * the click is inside the track, and nothing is to be resumed.
     */
    method RightClick(e: Editor, inRect: bool) returns (play: bool)
      requires e.HistoryValid() && Distinct(e.selectedNotes)
      modifies this`draggingTrack, this`draggingNote, this`draggingPoint, this`rightDraggingTrack, this`replay, e`actions, e`index
      ensures e.HistoryValid()
      ensures !draggingTrack && rightDraggingTrack == inRect && !replay
      ensures play == (old(draggingTrack) && old(replay))
      ensures old(draggingTrack) ==> draggingNote == null && draggingPoint == null
      ensures var r := if old(draggingTrack) then old(ReleaseAction(draggingNote, draggingPoint, e.selectedNotes)) else None;
        && (r.None? ==> e.actions == old(e.actions) && e.index == old(e.index))
        && (r.Some? ==> e.actions == old(e.actions[..e.index + 1]) + [r.value] && e.index == |e.actions| - 1)
    {
      // OnMouseUp ends both drags, so the flags become false | false and false | inRect.
      play := OnMouseUp(e);
      replay := false;
      rightDraggingTrack := inRect;
    }

    /**
     * OnMouseClick. A right click first releases any drag (as OnMouseUp).
     * A left click pauses the music when it is playing and then grabs what
     * is under the mouse (Grab). Every click remembers the mouse position
     * and the current time (cast to long); a left click drags the track, a
     * right click inside the track starts a right drag.
     */
    method OnMouseClick(e: Editor, mouseX: real, right: bool, inRect: bool, playing: bool, shift: bool, ctrl: bool)
      returns (pause: bool, play: bool)
      requires e.HistoryValid() && Distinct(e.selectedNotes)
      modifies this, e`actions, e`index, e`selectedNotes, e`selectedPoint, e.notes, e.selectedNotes,
        if hoveringNote == null then {} else {hoveringNote}, if hoveringPoint == null then {} else {hoveringPoint}
      ensures e.HistoryValid() && Distinct(e.selectedNotes) && e.notes == old(e.notes)
      ensures pause == (playing && !right)
      ensures draggingTrack == !right
      ensures rightDraggingTrack == if right then inRect else old(rightDraggingTrack)
      ensures dragStartX == mouseX && dragStartMs == Trunc(old(e.currentTime))
      ensures right ==>
        var r := if old(draggingTrack) then old(ReleaseAction(draggingNote, draggingPoint, e.selectedNotes)) else None;
        && play == (old(draggingTrack) && old(replay)) && !replay
        && (r.None? ==> e.actions == old(e.actions) && e.index == old(e.index))
        && (r.Some? ==> e.actions == old(e.actions[..e.index + 1]) + [r.value] && e.index == |e.actions| - 1)
        && (old(draggingTrack) ==> draggingNote == null && draggingPoint == null)
        && e.selectedNotes == old(e.selectedNotes) && e.selectedPoint == old(e.selectedPoint)
      ensures !right ==> !play && e.actions == old(e.actions) && e.index == old(e.index)
      ensures !right && old(hoveringNote) != null ==>
        && draggingNote == old(hoveringNote) && !replay
        && e.selectedNotes == ClickSelection(old(e.selectedNotes), e.notes, draggingNote, shift, ctrl)
        && e.SelectionSynced()
        && (forall i :: 0 <= i < |e.selectedNotes| ==> e.selectedNotes[i].dragStartMs == e.selectedNotes[i].ms)
        && Values(e.notes) == old(Values(e.notes))
      ensures !right && old(hoveringNote) == null && old(hoveringPoint) != null ==>
        && draggingPoint == old(hoveringPoint) && e.selectedPoint == draggingPoint && !replay
        && draggingPoint.dragStartMs == draggingPoint.ms && draggingPoint.ms == old(hoveringPoint.ms)
        && e.selectedNotes == old(e.selectedNotes)
      ensures !right && old(hoveringNote) == null && old(hoveringPoint) == null ==>
        replay == playing && e.selectedNotes == old(e.selectedNotes) && e.selectedPoint == old(e.selectedPoint)
    {
      play := false;
      pause := playing && !right;
      if right {
        play := RightClick(e, inRect);
      } else {
        Grab(e, pause, shift, ctrl);
        draggingTrack := true;
      }
      dragStartX, dragStartMs := mouseX, Trunc(e.currentTime);
    }

    /**
     * The note drag: every selected note moves from its drag start by the
     * same offset (NoteDragOffset), clamped to the song and cast to long;
     * then the notes are sorted.
     */
    method DragNotes(e: Editor, note: Note, cellStep: real, cursorMs: real)
      requires cellStep > 0.0 && e.beatDivisor > -1.0
      modifies e`notes, e.selectedNotes
      ensures var offset := NoteDragOffset(old(Tempos(e.timingPoints)), old(note.dragStartMs), old(note.ms), cursorMs, cellStep,
                                           e.beatDivisor, e.currentTimeMax);
        forall i :: 0 <= i < |e.selectedNotes| ==> e.selectedNotes[i].ms == DraggedTime(e.selectedNotes[i].dragStartMs, offset, e.currentTimeMax)
      ensures forall n :: n in e.selectedNotes ==> n.x == old(n.x) && n.dragStartMs == old(n.dragStartMs) && n.selected == old(n.selected)
      ensures e.notes == ByTime(old(e.notes))
    {
      var offset := NoteOffset(e, note, cellStep, cursorMs);
      DragTimes(e.selectedNotes, offset, e.currentTimeMax);
      e.SortNotes();
    }

    /** The offset computation of the note drag. */
    method NoteOffset(e: Editor, note: Note, cellStep: real, cursorMs: real) returns (offset: real)
      requires cellStep > 0.0 && e.beatDivisor > -1.0
      ensures offset == NoteDragOffset(Tempos(e.timingPoints), note.dragStartMs, note.ms, cursorMs, cellStep, e.beatDivisor, e.currentTimeMax)
    {
      var start := note.dragStartMs;
      offset := start as real - cursorMs;
      offset := if Pixels(start as real, cursorMs, cellStep) <= 5.0 then 0.0 else offset;
      var currentBpm := GetCurrentBpm(e.timingPoints, cursorMs, false);
      if currentBpm.bpm > 0.0 {
        var threshold := SnapThreshold(currentBpm.bpm, e.beatDivisor, cellStep);
        var snappedMs := GetClosestBeat(e.timingPoints, note.ms as real, false, e.beatDivisor, e.currentTimeMax);
        if Pixels(snappedMs as real, cursorMs, cellStep) <= threshold {
          offset := (start - snappedMs) as real;
        }
      }
    }

    /**
     * The point drag: the point moves from its drag start by
     * PointDragOffset, capped at the song length and cast to long; then the
     * timing points are sorted.
     */
    method DragPoint(e: Editor, point: TimingPoint, cellStep: real, cursorMs: real)
      requires cellStep > 0.0 && e.beatDivisor > -1.0
      modifies e`timingPoints, point`ms
      ensures point.ms == DraggedPointTime(point.dragStartMs,
        PointDragOffset(old(Tempos(e.timingPoints)), old(Times(e.notes)), point.dragStartMs, old(point.ms), cursorMs, cellStep,
                        e.beatDivisor, e.currentTimeMax), e.currentTimeMax)
      ensures e.timingPoints == PointsByTime(old(e.timingPoints))
    {
      var offset := PointOffset(e, point, cellStep, cursorMs);
      e.SetPointTime(point, Trunc(MinReal(point.dragStartMs as real - offset, e.currentTimeMax)));
    }

    /** The offset computation of the point drag. */
    method PointOffset(e: Editor, point: TimingPoint, cellStep: real, cursorMs: real) returns (offset: real)
      requires cellStep > 0.0 && e.beatDivisor > -1.0
      ensures offset == PointDragOffset(Tempos(e.timingPoints), Times(e.notes), point.dragStartMs, point.ms, cursorMs, cellStep,
                                        e.beatDivisor, e.currentTimeMax)
    {
      var start := point.dragStartMs;
      offset := start as real - cursorMs;
      var currentBpm := GetCurrentBpm(e.timingPoints, cursorMs, false);
      var threshold := SnapThreshold(currentBpm.bpm, e.beatDivisor, cellStep);
      var snappedMs := GetClosestBeat(e.timingPoints, point.ms as real, true, e.beatDivisor, e.currentTimeMax);
      var snappedNote := GetNearestNote(e.notes, point.ms as real);
      if AbsReal(snappedNote as real - cursorMs) < AbsReal(snappedMs as real - cursorMs) {
        snappedMs := snappedNote;
      }
      if Pixels(snappedMs as real, cursorMs, cellStep) <= threshold {
        offset := (start - snappedMs) as real;
      }
      if Pixels(0.0, cursorMs, cellStep) <= threshold {
        offset := start as real;
      }
    }

    /**
     * OnMouseMove while the track is dragged: with a dragged note the
     * selection moves in time, with a dragged point the point moves, and
     * otherwise the current time scrubs to where the mouse has moved the
     * grab time (one second being 1000 / cellStep pixels). Nothing happens
     * when the track is not dragged.
     */
    method OnMouseMove(e: Editor, mouseX: real, cellStep: real, cursorMs: real)
      requires cellStep > 0.0 && e.beatDivisor > -1.0
      modifies e`notes, e`timingPoints, e`currentTime, e.selectedNotes, if draggingPoint == null then {} else {draggingPoint}
      ensures !draggingTrack ==>
        e.notes == old(e.notes) && e.timingPoints == old(e.timingPoints) && e.currentTime == old(e.currentTime)
        && (forall n :: n in e.selectedNotes ==> n.ms == old(n.ms))
      ensures draggingTrack && draggingNote != null ==>
        var offset := NoteDragOffset(old(Tempos(e.timingPoints)), old(draggingNote.dragStartMs), old(draggingNote.ms), cursorMs, cellStep,
                                     e.beatDivisor, e.currentTimeMax);
        && (forall i :: 0 <= i < |e.selectedNotes| ==> e.selectedNotes[i].ms == DraggedTime(e.selectedNotes[i].dragStartMs, offset, e.currentTimeMax))
        && (forall n :: n in e.selectedNotes ==> n.x == old(n.x) && n.dragStartMs == old(n.dragStartMs))
        && e.notes == ByTime(old(e.notes)) && e.timingPoints == old(e.timingPoints) && e.currentTime == old(e.currentTime)
      ensures draggingTrack && draggingNote == null && draggingPoint != null ==>
        && draggingPoint.ms == DraggedPointTime(draggingPoint.dragStartMs,
             PointDragOffset(old(Tempos(e.timingPoints)), old(Times(e.notes)), draggingPoint.dragStartMs, old(draggingPoint.ms), cursorMs,
                             cellStep, e.beatDivisor, e.currentTimeMax), e.currentTimeMax)
        && e.timingPoints == PointsByTime(old(e.timingPoints)) && e.notes == old(e.notes) && e.currentTime == old(e.currentTime)
      ensures draggingTrack && draggingNote == null && draggingPoint == null ==>
        && e.currentTime == ScrubTime(old(Tempos(e.timingPoints)), dragStartMs, (mouseX - dragStartX) / cellStep * 1000.0,
                                      e.beatDivisor, e.currentTimeMax)
        && e.notes == old(e.notes) && e.timingPoints == old(e.timingPoints)
    {
      if !draggingTrack {
        return;
      }
      if draggingNote != null {
        DragNotes(e, draggingNote, cellStep, cursorMs);
      } else if draggingPoint != null {
        DragPoint(e, draggingPoint, cellStep, cursorMs);
      } else {
        Scrub(e, (mouseX - dragStartX) / cellStep * 1000.0);
      }
    }

    /** Scrubbing the track: the time under the drag, snapped to the closest beat when a tempo is in force, clamped to [0, max]. */
    method Scrub(e: Editor, offset: real)
      requires e.beatDivisor > -1.0
      modifies e`currentTime
      ensures e.currentTime == ScrubTime(Tempos(e.timingPoints), dragStartMs, offset, e.beatDivisor, e.currentTimeMax)
    {
      var finalTime := dragStartMs as real - offset;
      var point := GetCurrentBpm(e.timingPoints, finalTime, false);
      if point.bpm > 0.0 {
        var beat := GetClosestBeat(e.timingPoints, finalTime, false, e.beatDivisor, e.currentTimeMax);
        finalTime := beat as real;
      }
      e.currentTime := ClampReal(finalTime, 0.0, e.currentTimeMax);
    }

    /**
     * OnMouseUp: when the track was dragged, record what ReleaseAction
     * names without applying it (the notes or the point are already where
     * the drag left them), end the drag and resume playback if the grab
     * paused it; a right drag ends in every case.
     */
    method OnMouseUp(e: Editor) returns (play: bool)
      requires e.HistoryValid() && Distinct(e.selectedNotes)
      modifies this`draggingTrack, this`draggingNote, this`draggingPoint, this`rightDraggingTrack, e`actions, e`index
      ensures e.HistoryValid()
      ensures !draggingTrack && !rightDraggingTrack
      ensures play == (old(draggingTrack) && replay)
      ensures old(draggingTrack) ==> draggingNote == null && draggingPoint == null
      ensures !old(draggingTrack) ==> draggingNote == old(draggingNote) && draggingPoint == old(draggingPoint)
      ensures var r := if old(draggingTrack) then old(ReleaseAction(draggingNote, draggingPoint, e.selectedNotes)) else None;
        && (r.None? ==> e.actions == old(e.actions) && e.index == old(e.index))
        && (r.Some? ==> e.actions == old(e.actions[..e.index + 1]) + [r.value] && e.index == |e.actions| - 1)
    {
      play := false;
      if draggingTrack {
        if draggingNote != null && draggingNote.dragStartMs != draggingNote.ms {
          var sel := e.selectedNotes;
          var startList, msList := CapturedTimes(sel);
          assert startList == DragStarts(sel) && msList == Times(sel);
          e.Push(Action(CountLabel("MOVE NOTE", |sel|), SetTimes(sel, startList, msList)));
        } else if draggingPoint != null && draggingPoint.dragStartMs != draggingPoint.ms {
          var point := draggingPoint;
          e.Push(Action("MOVE POINT", MovePoint(point, point.dragStartMs, point.ms)));
        }
        draggingTrack := false;
        draggingNote := null;
        draggingPoint := null;
        play := replay;
      }
      if rightDraggingTrack {
        rightDraggingTrack := false;
      }
    }
  }

  /**
   * Releasing a note drag and then undoing puts every selected note back
   * at its drag start, in time order, with the history back where it was.
   */
  method ReleaseThenUndo(t: Track, e: Editor)
    requires e.HistoryValid() && Distinct(e.selectedNotes)
    requires t.draggingTrack && t.draggingNote != null && t.draggingNote.dragStartMs != t.draggingNote.ms
    modifies t`draggingTrack, t`draggingNote, t`draggingPoint, t`rightDraggingTrack, e`actions, e`index,
      e`notes, e`selectedNotes, e`selectedPoint, e`timingPoints, e.notes`selected, e.selectedNotes
    ensures e.HistoryValid() && e.index == old(e.index) && e.actions[..e.index + 1] == old(e.actions[..e.index + 1])
    ensures forall i :: 0 <= i < |old(e.selectedNotes)| ==> old(e.selectedNotes)[i].ms == old(e.selectedNotes[i].dragStartMs)
    ensures e.notes == ByTime(old(e.notes))
    ensures |e.actions| == e.index + 2 && e.actions[e.index + 1].command == SetTimes(old(e.selectedNotes), old(DragStarts(e.selectedNotes)), old(Times(e.selectedNotes)))
  {
    var sel := e.selectedNotes;
    var play := t.OnMouseUp(e);
    e.Undo();
  }
  /**
   * Releasing a note drag, undoing and redoing leaves every selected note
   * at the time the drag gave it, with the MOVE action applied last.
   */
  method ReleaseUndoRedo(t: Track, e: Editor)
    requires e.HistoryValid() && Distinct(e.selectedNotes)
    requires t.draggingTrack && t.draggingNote != null && t.draggingNote.dragStartMs != t.draggingNote.ms
    modifies t`draggingTrack, t`draggingNote, t`draggingPoint, t`rightDraggingTrack, e`actions, e`index,
      e`notes, e`selectedNotes, e`selectedPoint, e`timingPoints, e.notes`selected, e.selectedNotes
    ensures e.HistoryValid() && e.index == old(e.index) + 1 && e.index == |e.actions| - 1
    ensures forall i :: 0 <= i < |old(e.selectedNotes)| ==> old(e.selectedNotes)[i].ms == old(e.selectedNotes[i].ms)
  {
    var sel := e.selectedNotes;
    ghost var ms := Times(sel);
    ghost var notes := e.notes;
    ReleaseThenUndo(t, e);
    label Undone:
    assert e.actions[e.index + 1].command == SetTimes(sel, old(DragStarts(sel)), ms);
    assert forall i :: 0 <= i < |e.notes| ==> e.notes[i] in notes by {
      ByTimeSortsStably(notes, 0);
      assert multiset(e.notes) == multiset(notes);
      forall i | 0 <= i < |e.notes| ensures e.notes[i] in notes {
        assert e.notes[i] in multiset(e.notes);
      }
    }
    ghost var c := e.actions[e.index + 1].command;
    e.Redo();
    assert FieldsApplied(c, true, old@Undone(Values(sel)), old@Undone(Flags(sel)));
    assert forall i :: 0 <= i < |sel| ==> sel[i].ms == ms[i];
  }
}
