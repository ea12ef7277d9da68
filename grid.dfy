// Mouse input on the note grid (GuiGrid): a click places a note (ADD NOTE)
// or picks up the hovered note and updates the selection; dragging either
// keeps placing notes or moves the selection across lanes and in time;
// releasing a moved selection records MOVE NOTE(S) without re-applying it.
// The grid position under the mouse (PointToGridSpace) is an input.

module GridInput {
  import opened Common
  import opened Notes
  import opened TimeOrder
  import opened Edits
  import opened Commands
  import opened Selection
  import opened Editing
  import opened Timing

  /** The grid's drag state. Positions are (lane, time) pairs in grid space. */
  class Grid {
    var hovering: bool
    var hoveringNote: Note?
    var dragging: bool
    var draggingNote: Note?
    var lastPlaced: (real, real)
    var lastPos: (real, real)
    var startX: real

    constructor ()
      ensures !hovering && hoveringNote == null && !dragging && draggingNote == null
    {
      hovering, hoveringNote := false, null;
      dragging, draggingNote := false, null;
      lastPlaced, lastPos := (-1.0, -1.0), (-1.0, -1.0);
      startX := 0.0;
    }

    /**
     * Place a fresh note in lane gridX at time ms, recorded as ADD NOTE and
     * applied; the cursor advances one beat when autoAdvance is on and the
     * grid time is the current time; the position is remembered as the
     * last placed one.
     */
    method AddNoteAt(e: Editor, gridX: real, gridY: real, ms: int, autoAdvance: bool, infStep: int) returns (n: Note)
      requires e.HistoryValid() && e.beatDivisor > -1.0
      modifies this`lastPlaced, e`actions, e`index, e`notes, e`selectedNotes, e`selectedPoint, e`timingPoints, e.notes`selected, e`currentTime
      ensures fresh(n) && n.x == gridX && n.ms == ms && !n.selected
      ensures e.HistoryValid()
      ensures e.actions == old(e.actions[..e.index + 1]) + [Action("ADD NOTE", AddNotes([n]))] && e.index == |e.actions| - 1
      ensures e.notes == ByTime(old(e.notes) + [n])
      ensures e.selectedNotes == old(e.selectedNotes)
      ensures !(autoAdvance && gridY == old(e.currentTime)) ==> e.currentTime == old(e.currentTime)
      ensures lastPlaced == (gridX, gridY)
    {
      n := Place(e, gridX, ms);
      ghost var placed := e.notes;
      assert placed == ByTime(old(e.notes) + [n]);
      AdvanceAt(e, gridY, autoAdvance, infStep);
      assert e.notes == placed;
      lastPlaced := (gridX, gridY);
    }

    /**
     * The advance after a grid placement: only when autoAdvance is on and
     * the grid time is the current time, and then one beat forward when a
     * tempo is in force there.
     */
    method AdvanceAt(e: Editor, gridY: real, autoAdvance: bool, infStep: int)
      requires e.beatDivisor > -1.0
      modifies e`currentTime
      ensures !(autoAdvance && gridY == old(e.currentTime)) ==> e.currentTime == old(e.currentTime)
      ensures autoAdvance && gridY == old(e.currentTime) ==>
        e.currentTime == if CurrentBpm(Tempos(e.timingPoints), old(e.currentTime), false).bpm > 0.0
          then ClosestBeatScroll(Tempos(e.timingPoints), old(e.currentTime), false, 1, e.beatDivisor, e.currentTimeMax, infStep) as real
          else old(e.currentTime)
    {
      if autoAdvance && gridY == e.currentTime {
        e.Advance(false, infStep);
      }
    }

    /** The ADD NOTE of a grid click or drag: a fresh note, recorded and applied. */
    method Place(e: Editor, gridX: real, ms: int) returns (n: Note)
      requires e.HistoryValid()
      modifies e`actions, e`index, e`notes, e`selectedNotes, e`selectedPoint, e`timingPoints, e.notes`selected
      ensures fresh(n) && n.x == gridX && n.ms == ms && !n.selected
      ensures e.HistoryValid()
      ensures e.actions == old(e.actions[..e.index + 1]) + [Action("ADD NOTE", AddNotes([n]))] && e.index == |e.actions| - 1
      ensures e.notes == ByTime(old(e.notes) + [n])
      ensures e.selectedNotes == old(e.selectedNotes) && e.currentTime == old(e.currentTime)
    {
      n := new Note(gridX, ms);
      e.RecordAdd("ADD NOTE", [n]);
    }

    /**
     * Pick up the hovered note for a drag: remember its lane and time and
     * apply the click rules to the selection (the shift rule guarded by a
     * non-empty selection), then update the Selected flags.
     */
    method PickUp(e: Editor, hovered: Note, shift: bool, ctrl: bool)
      modifies this`draggingNote, this`lastPos, this`startX, e`selectedNotes, e.notes`selected, e.selectedNotes`selected, hovered`selected
      ensures draggingNote == hovered && lastPos == (hovered.x, hovered.ms as real) && startX == hovered.x
      ensures e.selectedNotes == ClickSelection(old(e.selectedNotes), e.notes, hovered, shift, ctrl)
      ensures e.SelectionSynced()
      ensures Values(e.notes) == old(Values(e.notes))
    {
      draggingNote := hovered;
      lastPos := (hovered.x, hovered.ms as real);
      startX := hovered.x;
      var selected := ClickSelect(e.selectedNotes, e.notes, hovered, shift, ctrl);
      ClickSelectionFrom(e.selectedNotes, e.notes, hovered, shift, ctrl);
      assert forall i :: 0 <= i < |selected| ==> selected[i] in e.selectedNotes || selected[i] in e.notes || selected[i] == hovered;
      e.selectedNotes := selected;
      e.UpdateSelection();
    }

    /**
     * OnMouseClick: nothing when the track is hovering a timing point.
     * Otherwise a drag starts when the grid is hovered over a note, or
     * anywhere when the click tool places notes; it places a note (at the
     * grid time when that is not negative and the mouse is above the grid,
     * at the current time otherwise) unless it is over a note and the
     * select tool is in use, in which case it picks the note up.
     */
    method OnMouseClick(e: Editor, gridX: real, gridY: real, aboveGrid: bool, trackHoveringPoint: bool,
                        separateClickTools: bool, selectTool: bool, autoAdvance: bool, shift: bool, ctrl: bool, infStep: int)
      returns (placed: Note?)
      requires e.HistoryValid() && e.beatDivisor > -1.0
      modifies this, e`actions, e`index, e`notes, e`selectedNotes, e`selectedPoint, e`timingPoints, e.notes`selected,
        e.selectedNotes`selected, e`currentTime, if hoveringNote == null then {} else {hoveringNote}
      ensures e.HistoryValid()
      ensures trackHoveringPoint ==>
        placed == null && unchanged(this) && e.actions == old(e.actions) && e.notes == old(e.notes)
        && e.selectedNotes == old(e.selectedNotes) && e.currentTime == old(e.currentTime)
      ensures !trackHoveringPoint ==> dragging == old(hovering && (hoveringNote != null || !separateClickTools || !selectTool))
      ensures !trackHoveringPoint && dragging && (old(hoveringNote) == null || (separateClickTools && !selectTool)) ==>
        && placed != null && fresh(placed) && placed.x == gridX && !placed.selected
        && placed.ms == Trunc(if gridY >= 0.0 && aboveGrid then gridY else old(e.currentTime))
        && e.actions == old(e.actions[..e.index + 1]) + [Action("ADD NOTE", AddNotes([placed]))]
        && e.notes == ByTime(old(e.notes) + [placed])
        && lastPlaced == (gridX, gridY)
      ensures !trackHoveringPoint && dragging && old(hoveringNote) != null && !(separateClickTools && !selectTool) ==>
        && placed == null && draggingNote == old(hoveringNote)
        && lastPos == (draggingNote.x, draggingNote.ms as real) && startX == draggingNote.x
        && e.selectedNotes == ClickSelection(old(e.selectedNotes), e.notes, draggingNote, shift, ctrl)
        && e.SelectionSynced()
        && e.actions == old(e.actions) && e.notes == old(e.notes)
      ensures !trackHoveringPoint && !dragging ==>
        placed == null && e.actions == old(e.actions) && e.notes == old(e.notes) && e.selectedNotes == old(e.selectedNotes)
    {
      placed := null;
      if trackHoveringPoint {
        return;
      }
      dragging := hovering && (hoveringNote != null || !separateClickTools || !selectTool);
      if dragging {
        if hoveringNote == null || (separateClickTools && !selectTool) {
          var ms := Trunc(if gridY >= 0.0 && aboveGrid then gridY else e.currentTime);
          placed := AddNoteAt(e, gridX, gridY, ms, autoAdvance, infStep);
        } else {
          PickUp(e, hoveringNote, shift, ctrl);
        }
      }
    }

    /**
     * OnMouseMove while dragging. Without a dragged note a new note is
     * placed whenever the lane changes, or the grid time changes to one
     * that is neither the current time nor the last placed time. With a
     * dragged note the selection moves under the same condition against
     * the last drag position.
     */
    method OnMouseMove(e: Editor, gridX: real, gridY: real, autoAdvance: bool, infStep: int) returns (placed: Note?)
      requires e.HistoryValid() && e.beatDivisor > -1.0 && Distinct(e.selectedNotes)
      modifies this`lastPlaced, this`lastPos, e`actions, e`index, e`notes, e`selectedNotes, e`selectedPoint, e`timingPoints,
        e.notes`selected, e`currentTime, e.selectedNotes
      ensures e.HistoryValid() && e.selectedNotes == old(e.selectedNotes)
      ensures !dragging ==> placed == null && e.actions == old(e.actions) && e.notes == old(e.notes) && lastPlaced == old(lastPlaced)
      ensures dragging && draggingNote == null ==>
        var moved := gridX != old(lastPlaced.0) || (gridY != old(e.currentTime) && gridY != old(lastPlaced.1));
        && (moved ==>
              placed != null && fresh(placed) && placed.x == gridX && placed.ms == PlacedTime(gridY, old(e.currentTime))
              && e.actions == old(e.actions[..e.index + 1]) + [Action("ADD NOTE", AddNotes([placed]))]
              && e.notes == ByTime(old(e.notes) + [placed]) && lastPlaced == (gridX, gridY))
        && (!moved ==> placed == null && e.actions == old(e.actions) && e.notes == old(e.notes))
      ensures dragging && draggingNote != null ==>
        var moved := gridX != old(lastPos.0) || (gridY != old(e.currentTime) && gridY != old(lastPos.1));
        && placed == null && e.actions == old(e.actions) && e.notes == old(e.notes)
        && (moved ==> lastPos == (gridX, gridY))
        && (moved && LaneLow <= old(draggingNote.x) <= LaneHigh && (forall i :: 0 <= i < |e.selectedNotes| ==> LaneLow <= old(e.selectedNotes[i].x) <= LaneHigh) ==>
              forall i :: 0 <= i < |e.selectedNotes| ==> LaneLow <= e.selectedNotes[i].x <= LaneHigh)
        && (moved ==> forall i :: 0 <= i < |e.selectedNotes| ==>
              e.selectedNotes[i].x == old(e.selectedNotes[i].x) + DragShift(old(Values(e.selectedNotes)), old(draggingNote.x), gridX)
              && e.selectedNotes[i].ms == if gridY > 0.0 then old(e.selectedNotes[i].ms) + (Trunc(gridY) - old(draggingNote.ms)) else old(e.selectedNotes[i].ms))
        && (!moved ==> lastPos == old(lastPos) && forall n :: n in e.selectedNotes ==> n.x == old(n.x) && n.ms == old(n.ms))
    {
      placed := null;
      if !dragging {
        return;
      }
      if draggingNote == null {
        if gridX != lastPlaced.0 || (gridY != e.currentTime && gridY != lastPlaced.1) {
          placed := AddNoteAt(e, gridX, gridY, PlacedTime(gridY, e.currentTime), autoAdvance, infStep);
        }
      } else if gridX != lastPos.0 || (gridY != e.currentTime && gridY != lastPos.1) {
        var shift := GridDrag(e.selectedNotes, draggingNote, gridX, gridY);
        lastPos := (gridX, gridY);
      }
    }

    /**
     * OnMouseUp: when the dragged note ended in another lane than it
     * started, record MOVE NOTE(S) over the selection, with each note's
     * lane shifted back by the dragged note's offset for undo and its
     * present lane for redo, without applying it (the notes are already
     * there). The drag ends in every case.
     */
    method OnMouseUp(e: Editor)
      requires e.HistoryValid() && Distinct(e.selectedNotes)
      modifies this`dragging, this`draggingNote, this`lastPlaced, e`actions, e`index
      ensures !dragging && draggingNote == null && lastPlaced == (-1.0, -1.0)
      ensures e.HistoryValid()
      ensures old(draggingNote) == null || old(draggingNote.x) == old(startX) ==> e.actions == old(e.actions) && e.index == old(e.index)
      ensures old(draggingNote) != null && old(draggingNote.x) != old(startX) ==>
        var sel := e.selectedNotes;
        var posDiff := old(draggingNote.x) - startX;
        && |e.actions| > 0 && e.index == |e.actions| - 1 && e.actions[..e.index] == old(e.actions[..e.index + 1])
        && e.actions[e.index].title == CountLabel("MOVE NOTE", |sel|)
        && e.actions[e.index].command.SetLanes? && e.actions[e.index].command.lanesOf == sel
        && (forall i :: 0 <= i < |sel| ==> e.actions[e.index].command.lanesBefore[i] == sel[i].x - posDiff)
        && (forall i :: 0 <= i < |sel| ==> e.actions[e.index].command.lanesAfter[i] == sel[i].x)
    {
      if draggingNote != null && draggingNote.x != startX {
        var sel := e.selectedNotes;
        var posDiff := draggingNote.x - startX;
        var before, after := CapturedLanes(sel, posDiff);
        e.Push(Action(CountLabel("MOVE NOTE", |sel|), SetLanes(sel, before, after)));
      }
      dragging := false;
      draggingNote := null;
      lastPlaced := (-1.0, -1.0);
    }
  }
}
