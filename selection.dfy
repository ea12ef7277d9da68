// The three click rules that change the note selection, shared by the track
// (GuiTrack.OnMouseClick) and the grid (GuiGrid.OnMouseClick): a shift-click
// selects a time range starting at the first selected note, a ctrl-click
// toggles the clicked note, and a plain click on an unselected note selects
// it alone. Notes are compared by reference (List.Contains and List.Remove
// on a class).

module Selection {
  import opened Common
  import opened Notes

  // ---------------------------------------------------------------------
  // Shift-click

  /**
   * The notes of `notes`, in list order, whose time lies in [lo, hi],
   * appended to acc unless already there: the foreach loop of a shift-click.
   */
  function RangeFrom(acc: seq<Note>, notes: seq<Note>, lo: int, hi: int): seq<Note>
    reads notes`ms
  {
    if notes == [] then acc
    else
      var r := RangeFrom(acc, notes[..|notes| - 1], lo, hi);
      var n := notes[|notes| - 1];
      if lo <= n.ms <= hi && n !in r then r + [n] else r
  }

  /** The selection after a shift-click on `hovered` when `first` is the first selected note. */
  function RangeSelection(first: Note, hovered: Note, notes: seq<Note>): seq<Note>
    reads first`ms, hovered`ms, notes`ms
  {
    RangeFrom([first], notes, MinInt(first.ms, hovered.ms), MaxInt(first.ms, hovered.ms))
  }

  lemma {:induction false} RangeFromSpec(acc: seq<Note>, notes: seq<Note>, lo: int, hi: int)
    requires Distinct(acc)
    ensures var r := RangeFrom(acc, notes, lo, hi);
      && |r| >= |acc| && r[..|acc|] == acc
      && Distinct(r)
      && (forall i :: |acc| <= i < |r| ==> r[i] in notes && lo <= r[i].ms <= hi)
      && (forall n :: n in notes && lo <= n.ms <= hi ==> n in r)
  {
    if notes != [] {
      var front := notes[..|notes| - 1];
      var n := notes[|notes| - 1];
      RangeFromSpec(acc, front, lo, hi);
      var r := RangeFrom(acc, front, lo, hi);
      forall m | m in notes && lo <= m.ms <= hi ensures m in RangeFrom(acc, notes, lo, hi) {
        if m != n {
          var k :| 0 <= k < |notes| && notes[k] == m;
          assert m == front[k];
        }
      }
      if lo <= n.ms <= hi && n !in r {
        assert (r + [n])[..|acc|] == r[..|acc|];
      }
    }
  }

  /**
   * A shift-click selection starts with the first selected note, continues
   * with every other note whose time lies between the first and the
   * clicked note's, and holds no note twice.
   */
  lemma RangeSelectionSpec(first: Note, hovered: Note, notes: seq<Note>)
    ensures var r := RangeSelection(first, hovered, notes);
      var lo := MinInt(first.ms, hovered.ms);
      var hi := MaxInt(first.ms, hovered.ms);
      && |r| >= 1 && r[0] == first
      && Distinct(r)
      && (forall i :: 1 <= i < |r| ==> r[i] in notes && lo <= r[i].ms <= hi)
      && (forall n :: n in notes && lo <= n.ms <= hi ==> n in r)
  {
    RangeFromSpec([first], notes, MinInt(first.ms, hovered.ms), MaxInt(first.ms, hovered.ms));
  }

  /** The shift-click loop, over a selection that is not empty. */
  method ShiftSelect(selected: seq<Note>, notes: seq<Note>, hovered: Note) returns (r: seq<Note>)
    requires |selected| > 0
    ensures r == RangeSelection(selected[0], hovered, notes)
  {
    var first := selected[0];
    var lo := MinInt(first.ms, hovered.ms);
    var hi := MaxInt(first.ms, hovered.ms);
    r := [first];
    var i := 0;
    while i < |notes|
      invariant 0 <= i <= |notes|
      invariant r == RangeFrom([first], notes[..i], lo, hi)
    {
      var note := notes[i];
      assert notes[..i + 1][..i] == notes[..i];
      if note.ms >= lo && note.ms <= hi && note !in r {
        r := r + [note];
      }
      i := i + 1;
    }
    assert notes[..|notes|] == notes;
  }

  // ---------------------------------------------------------------------
  // Ctrl-click and plain click

  /** Ctrl-click: remove the note when selected, otherwise add it at the end. */
  function CtrlToggle(selected: seq<Note>, n: Note): seq<Note>
  {
    if n in selected then RemoveFirst(selected, n) else selected + [n]
  }

  /**
   * A ctrl-click flips whether the clicked note is selected and leaves
   * every other note's membership as it was.
   */
  lemma CtrlToggleSpec(selected: seq<Note>, n: Note)
    requires Distinct(selected)
    ensures Distinct(CtrlToggle(selected, n))
    ensures n in CtrlToggle(selected, n) <==> n !in selected
    ensures forall m :: m != n ==> (m in CtrlToggle(selected, n) <==> m in selected)
  {
    if n in selected {
      RemoveFirstDistinct(selected, n);
      forall m | m != n ensures m in CtrlToggle(selected, n) <==> m in selected {
        RemoveFirstIn(selected, n, m);
      }
    }
  }

  /** Plain click: a note that is already selected keeps the selection, any other becomes the whole selection. */
  function PlainClick(selected: seq<Note>, n: Note): seq<Note>
  {
    if n in selected then selected else [n]
  }

  // ---------------------------------------------------------------------
  // The three rules together

  /**
   * The selection after a click on `hovered` with the track's guard: the
   * shift rule needs a selection to start from.
   */
  function ClickSelection(selected: seq<Note>, notes: seq<Note>, hovered: Note, shift: bool, ctrl: bool): seq<Note>
    reads selected`ms, notes`ms, hovered`ms
  {
    if shift && |selected| > 0 then RangeSelection(selected[0], hovered, notes)
    else if ctrl then CtrlToggle(selected, hovered)
    else PlainClick(selected, hovered)
  }

  /**
   * A click never puts a note in the selection twice, and a click without
   * ctrl always leaves the clicked note of the list selected.
   */
  lemma ClickSelectionSpec(selected: seq<Note>, notes: seq<Note>, hovered: Note, shift: bool, ctrl: bool)
    requires Distinct(selected)
    ensures Distinct(ClickSelection(selected, notes, hovered, shift, ctrl))
    ensures hovered in notes && !ctrl ==> hovered in ClickSelection(selected, notes, hovered, shift, ctrl)
  {
    if shift && |selected| > 0 {
      RangeSelectionSpec(selected[0], hovered, notes);
    } else if ctrl {
      CtrlToggleSpec(selected, hovered);
    }
  }

  /**
   * A plain click (neither shift nor ctrl) on an unselected note makes the
   * selection exactly that note; on a selected note it keeps the selection.
   */
  lemma PlainClickSpec(selected: seq<Note>, notes: seq<Note>, hovered: Note)
    ensures var r := ClickSelection(selected, notes, hovered, false, false);
      && hovered in r
      && (hovered !in selected ==> r == [hovered])
      && (hovered in selected ==> r == selected)
  {
  }

  /** A click selects nothing but notes that were selected, notes of the list and the clicked note. */
  lemma ClickSelectionFrom(selected: seq<Note>, notes: seq<Note>, hovered: Note, shift: bool, ctrl: bool)
    ensures forall m :: m in ClickSelection(selected, notes, hovered, shift, ctrl) ==> m in selected || m in notes || m == hovered
  {
    if shift && |selected| > 0 {
      RangeSelectionSpec(selected[0], hovered, notes);
      var r := RangeSelection(selected[0], hovered, notes);
      forall m | m in r ensures m in selected || m in notes {
        var k :| 0 <= k < |r| && r[k] == m;
      }
    } else if ctrl {
      forall m | m in ClickSelection(selected, notes, hovered, shift, ctrl) ensures m in selected || m == hovered {
        RemoveFirstIn(selected, hovered, m);
      }
    }
  }

  /** The click rules as the track runs them (its shift rule is guarded by a non-empty selection). */
  method ClickSelect(selected: seq<Note>, notes: seq<Note>, hovered: Note, shift: bool, ctrl: bool) returns (r: seq<Note>)
    ensures r == ClickSelection(selected, notes, hovered, shift, ctrl)
  {
    if shift && |selected| > 0 {
      r := ShiftSelect(selected, notes, hovered);
    } else if ctrl {
      r := if hovered in selected then RemoveFirst(selected, hovered) else selected + [hovered];
    } else if hovered !in selected {
      r := [hovered];
    } else {
      r := selected;
    }
  }

  /**
   * The grid's click rules as written: the shift rule reads the first
   * selected note without checking that there is one, so a shift-click on
   * an empty selection throws (None).
   */
  function GridClickSelectionAsWritten(selected: seq<Note>, notes: seq<Note>, hovered: Note, shift: bool, ctrl: bool): (r: Option<seq<Note>>)
    reads selected`ms, notes`ms, hovered`ms
    ensures r.None? <==> shift && selected == []
    ensures r.Some? ==> r.value == ClickSelection(selected, notes, hovered, shift, ctrl)
  {
    if shift then
      if |selected| == 0 then None else Some(RangeSelection(selected[0], hovered, notes))
    else if ctrl then Some(CtrlToggle(selected, hovered))
    else Some(PlainClick(selected, hovered))
  }

  /** A shift-click on the grid with nothing selected: the rule as written fails, the guarded rule selects the clicked note. */
  lemma GridShiftClickOnEmptySelection(notes: seq<Note>, hovered: Note)
    ensures GridClickSelectionAsWritten([], notes, hovered, true, false).None?
    ensures ClickSelection([], notes, hovered, true, false) == [hovered]
  {
  }
}
