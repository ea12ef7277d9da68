// The per-note arithmetic of the edit commands and the loops that apply it
// to a list of notes in place: mirror and scale across the lane centre,
// the track's time drag, the grid's lane-bounded drag and the paste shift.
// Lanes run from 0 to 4 (MainWindow.Bounds).

module Edits {
  import opened Common
  import opened Notes
  import opened Timing

  // ---------------------------------------------------------------------
  // Lane arithmetic

  /** MIRROR: X becomes 4 - X. */
  function Mirrored(x: real): (r: real)
    ensures LaneLow <= x <= LaneHigh ==> LaneLow <= r <= LaneHigh
    ensures r + x == LaneHigh
  {
    4.0 - x
  }

  /** SCALE by `scale` percent about the lane centre, clamped to the lanes. */
  function Scaled(x: real, scale: real): (r: real)
    ensures LaneLow <= r <= LaneHigh
  {
    ClampReal((x - 2.0) * (scale / 100.0) + 2.0, LaneLow, LaneHigh)
  }

  /** Scaling by 100 percent leaves a lane inside the bounds where it was. */
  lemma ScaleByHundred(x: real)
    requires LaneLow <= x <= LaneHigh
    ensures Scaled(x, 100.0) == x
  {
    assert 100.0 / 100.0 == 1.0;
  }

  /** Scaling about the centre and mirroring about the centre commute. */
  lemma ScaleMirror(x: real, scale: real)
    ensures Scaled(Mirrored(x), scale) == Mirrored(Scaled(x, scale))
  {
    var f := scale / 100.0;
    assert (Mirrored(x) - 2.0) * f == -((x - 2.0) * f);
  }

  /**
   * The grid's horizontal drag offset: first raised so the leftmost
   * selected lane does not pass 0, then lowered so the rightmost does not
   * pass 4.
   */
  function LaneShift(xDiff: real, minX: real, maxX: real): (r: real)
    ensures LaneLow <= minX <= maxX <= LaneHigh ==> LaneLow <= minX + r && maxX + r <= LaneHigh
    ensures LaneLow <= minX + xDiff && maxX + xDiff <= LaneHigh ==> r == xDiff
  {
    var raised := MaxReal(LaneLow, minX + xDiff) - minX;
    MinReal(LaneHigh, maxX + raised) - maxX
  }

  /** The track's note drag: the start time moved by the offset, clamped to [0, max], then cast to long. */
  function DraggedTime(start: int, offset: real, max: real): (r: int)
    ensures 0 <= r
    ensures max >= 0.0 ==> r as real <= max
    ensures 0.0 <= start as real - offset <= max && offset.Floor as real == offset ==> r == start - offset.Floor
  {
    Trunc(ClampReal(start as real - offset, 0.0, max))
  }

  /** The time a grid placement gives a note: the grid time when it is not negative, else the current time. */
  function PlacedTime(gridY: real, currentTime: real): (r: int)
    ensures gridY >= 0.0 ==> r == gridY.Floor
    ensures gridY < 0.0 && currentTime >= 0.0 ==> r == currentTime.Floor
  {
    Trunc(if gridY >= 0.0 then gridY else currentTime)
  }

  // ---------------------------------------------------------------------
  // Loops over notes, changed in place

  /** Lane, time and drag start of every note of the list as they are now. */
  twostate predicate OthersKept(ns: seq<Note>)
    reads ns
  {
    forall n :: n in ns ==> n.ms == old(n.ms) && n.dragStartMs == old(n.dragStartMs) && n.selected == old(n.selected)
  }

  /** The MIRROR loop: every note of a duplicate-free list gets X = 4 - X. */
  method MirrorLanes(ns: seq<Note>)
    requires Distinct(ns)
    modifies ns
    ensures forall i :: 0 <= i < |ns| ==> ns[i].x == Mirrored(old(ns[i].x))
    ensures OthersKept(ns)
  {
    var i := 0;
    while i < |ns|
      invariant 0 <= i <= |ns|
      invariant forall j :: 0 <= j < i ==> ns[j].x == Mirrored(old(ns[j].x))
      invariant forall j :: i <= j < |ns| ==> ns[j].x == old(ns[j].x)
      invariant OthersKept(ns)
    {
      ns[i].x := 4.0 - ns[i].x;
      i := i + 1;
    }
  }

  /** Mirroring twice gives every note its lane back: MIRROR's undo after its redo. */
  lemma MirrorTwice(xs: seq<real>)
    ensures forall i :: 0 <= i < |xs| ==> Mirrored(Mirrored(xs[i])) == xs[i]
  {
  }

  /** The SCALE and grid MOVE loops: note i gets lane xs[i]. */
  method AssignLanes(ns: seq<Note>, xs: seq<real>)
    requires Distinct(ns) && |xs| == |ns|
    modifies ns
    ensures forall i :: 0 <= i < |ns| ==> ns[i].x == xs[i]
    ensures OthersKept(ns)
  {
    var i := 0;
    while i < |ns|
      invariant 0 <= i <= |ns|
      invariant forall j :: 0 <= j < i ==> ns[j].x == xs[j]
      invariant OthersKept(ns)
    {
      ns[i].x := xs[i];
      i := i + 1;
    }
  }

  /** The track MOVE NOTE loops: note i gets time ms[i]. */
  method AssignTimes(ns: seq<Note>, ms: seq<int>)
    requires Distinct(ns) && |ms| == |ns|
    modifies ns
    ensures forall i :: 0 <= i < |ns| ==> ns[i].ms == ms[i]
    ensures forall n :: n in ns ==> n.x == old(n.x) && n.dragStartMs == old(n.dragStartMs) && n.selected == old(n.selected)
  {
    var i := 0;
    while i < |ns|
      invariant 0 <= i <= |ns|
      invariant forall j :: 0 <= j < i ==> ns[j].ms == ms[j]
      invariant forall n :: n in ns ==> n.x == old(n.x) && n.dragStartMs == old(n.dragStartMs) && n.selected == old(n.selected)
    {
      ns[i].ms := ms[i];
      i := i + 1;
    }
  }

  /** The lanes a SCALE by `scale` percent gives the notes, computed before any is changed. */
  method ScaledLanes(ns: seq<Note>, scale: real) returns (xs: seq<real>)
    ensures |xs| == |ns|
    ensures forall i :: 0 <= i < |ns| ==> xs[i] == Scaled(ns[i].x, scale)
  {
    xs := [];
    var i := 0;
    while i < |ns|
      invariant 0 <= i <= |ns|
      invariant |xs| == i
      invariant forall j :: 0 <= j < i ==> xs[j] == Scaled(ns[j].x, scale)
    {
      xs := xs + [ClampReal((ns[i].x - 2.0) * (scale / 100.0) + 2.0, LaneLow, LaneHigh)];
      i := i + 1;
    }
  }

  /** The lanes of the notes as they are now. */
  method CurrentLanes(ns: seq<Note>) returns (xs: seq<real>)
    ensures |xs| == |ns|
    ensures forall i :: 0 <= i < |ns| ==> xs[i] == ns[i].x
  {
    xs := [];
    var i := 0;
    while i < |ns|
      invariant 0 <= i <= |ns|
      invariant |xs| == i
      invariant forall j :: 0 <= j < i ==> xs[j] == ns[j].x
    {
      xs := xs + [ns[i].x];
      i := i + 1;
    }
  }

  /** The grid MOVE capture: the lanes before the drag (now minus posDiff) and after it (now). */
  method CapturedLanes(ns: seq<Note>, posDiff: real) returns (before: seq<real>, after: seq<real>)
    ensures |before| == |ns| && |after| == |ns|
    ensures forall i :: 0 <= i < |ns| ==> after[i] == ns[i].x && before[i] == ns[i].x - posDiff
  {
    before, after := [], [];
    var i := 0;
    while i < |ns|
      invariant 0 <= i <= |ns|
      invariant |before| == i && |after| == i
      invariant forall j :: 0 <= j < i ==> after[j] == ns[j].x && before[j] == ns[j].x - posDiff
    {
      var x := ns[i].x;
      before := before + [x - posDiff];
      after := after + [x];
      i := i + 1;
    }
  }

  /** The track MOVE NOTE capture: each selected note's drag start and its time now. */
  method CapturedTimes(ns: seq<Note>) returns (startList: seq<int>, msList: seq<int>)
    ensures |startList| == |ns| && |msList| == |ns|
    ensures forall i :: 0 <= i < |ns| ==> startList[i] == ns[i].dragStartMs && msList[i] == ns[i].ms
  {
    startList, msList := [], [];
    var i := 0;
    while i < |ns|
      invariant 0 <= i <= |ns|
      invariant |startList| == i && |msList| == i
      invariant forall j :: 0 <= j < i ==> startList[j] == ns[j].dragStartMs && msList[j] == ns[j].ms
    {
      startList := startList + [ns[i].dragStartMs];
      msList := msList + [ns[i].ms];
      i := i + 1;
    }
  }

  /** After a note click on the track, every selected note remembers where its drag starts. */
  method MarkDragStart(ns: seq<Note>)
    modifies ns`dragStartMs
    ensures forall i :: 0 <= i < |ns| ==> ns[i].dragStartMs == ns[i].ms
  {
    var i := 0;
    while i < |ns|
      invariant 0 <= i <= |ns|
      invariant forall j :: 0 <= j < i ==> ns[j].dragStartMs == ns[j].ms
    {
      ns[i].dragStartMs := ns[i].ms;
      i := i + 1;
    }
  }

  /** The track's note drag: every selected note moves from its drag start by the same offset, clamped to [0, max]. */
  method DragTimes(ns: seq<Note>, offset: real, max: real)
    modifies ns
    ensures forall i :: 0 <= i < |ns| ==> ns[i].ms == DraggedTime(ns[i].dragStartMs, offset, max)
    ensures forall n :: n in ns ==> n.x == old(n.x) && n.dragStartMs == old(n.dragStartMs) && n.selected == old(n.selected)
  {
    var i := 0;
    while i < |ns|
      invariant 0 <= i <= |ns|
      invariant forall j :: 0 <= j < i ==> ns[j].ms == DraggedTime(ns[j].dragStartMs, offset, max)
      invariant forall n :: n in ns ==> n.x == old(n.x) && n.dragStartMs == old(n.dragStartMs) && n.selected == old(n.selected)
    {
      ns[i].ms := Trunc(ClampReal(ns[i].dragStartMs as real - offset, 0.0, max));
      i := i + 1;
    }
  }

  /** The lowest of the lane x0 and the lanes of vs, taken in list order as the drag loop does. */
  function MinLane(vs: seq<NoteValue>, x0: real): (r: real)
    ensures r <= x0 && forall i :: 0 <= i < |vs| ==> r <= vs[i].x
    ensures r == x0 || exists i :: 0 <= i < |vs| && vs[i].x == r
  {
    if vs == [] then x0 else MinReal(vs[|vs| - 1].x, MinLane(vs[..|vs| - 1], x0))
  }

  /** The highest of the lane x0 and the lanes of vs. */
  function MaxLane(vs: seq<NoteValue>, x0: real): (r: real)
    ensures x0 <= r && forall i :: 0 <= i < |vs| ==> vs[i].x <= r
    ensures r == x0 || exists i :: 0 <= i < |vs| && vs[i].x == r
  {
    if vs == [] then x0 else MaxReal(vs[|vs| - 1].x, MaxLane(vs[..|vs| - 1], x0))
  }

  /** The lane shift of a grid drag of the dragged note (lane x0) to gridX, with the selection's lanes vs. */
  function DragShift(vs: seq<NoteValue>, x0: real, gridX: real): real
  {
    LaneShift(gridX - x0, MinLane(vs, x0), MaxLane(vs, x0))
  }

  /** The lowest and highest lane among the selected notes and the dragged note's lane x0. */
  method LaneRange(ns: seq<Note>, x0: real) returns (minX: real, maxX: real)
    ensures minX == MinLane(Values(ns), x0) && maxX == MaxLane(Values(ns), x0)
  {
    ghost var vs := Values(ns);
    minX, maxX := x0, x0;
    var i := 0;
    while i < |ns|
      invariant 0 <= i <= |ns|
      invariant minX == MinLane(vs[..i], x0) && maxX == MaxLane(vs[..i], x0)
    {
      assert vs[..i + 1][..i] == vs[..i];
      maxX := MaxReal(ns[i].x, maxX);
      minX := MinReal(ns[i].x, minX);
      i := i + 1;
    }
    assert vs[..|ns|] == vs;
  }

  /**
   * The grid's drag step (GuiGrid.OnMouseMove): every selected note moves by one lane
   * offset, which is the mouse's offset from the dragged note clamped so
   * that the lowest and highest of the selection's and the dragged note's
   * lanes stay in [0, 4]; and, when the grid time is positive, by the
   * difference between the truncated grid time and the dragged note's
   * time.
   */
  method GridDrag(ns: seq<Note>, dragged: Note, gridX: real, gridY: real) returns (shift: real)
    requires Distinct(ns)
    modifies ns
    ensures forall i :: 0 <= i < |ns| ==> ns[i].x == old(ns[i].x) + shift
    ensures forall i :: 0 <= i < |ns| ==>
      ns[i].ms == if gridY > 0.0 then old(ns[i].ms) + (Trunc(gridY) - old(dragged.ms)) else old(ns[i].ms)
    ensures LaneLow <= old(dragged.x) <= LaneHigh && (forall i :: 0 <= i < |ns| ==> LaneLow <= old(ns[i].x) <= LaneHigh) ==>
      forall i :: 0 <= i < |ns| ==> LaneLow <= ns[i].x <= LaneHigh
    ensures (LaneLow <= gridX <= LaneHigh
      && forall i :: 0 <= i < |ns| ==> LaneLow <= old(ns[i].x) + (gridX - old(dragged.x)) <= LaneHigh) ==>
      shift == gridX - old(dragged.x)
    ensures shift == DragShift(old(Values(ns)), old(dragged.x), gridX)
    ensures forall n :: n in ns ==> n.selected == old(n.selected)
  {
    ghost var vs := Values(ns);
    var x0 := dragged.x;
    var tDiff := Trunc(gridY) - dragged.ms;
    shift := DragShiftOf(ns, x0, gridX);
    ShiftNotes(ns, shift, tDiff, gridY > 0.0);
    if LaneLow <= x0 <= LaneHigh && forall i :: 0 <= i < |vs| ==> LaneLow <= vs[i].x <= LaneHigh {
      DragStaysInLanes(vs, x0, gridX);
      forall i | 0 <= i < |ns| ensures LaneLow <= ns[i].x <= LaneHigh {
        assert ns[i].x == vs[i].x + shift;
      }
    }
  }

  /** The lane shift of a grid drag step, computed from the lane range of the selection. */
  method DragShiftOf(ns: seq<Note>, x0: real, gridX: real) returns (shift: real)
    ensures shift == DragShift(Values(ns), x0, gridX)
  {
    var minX, maxX := LaneRange(ns, x0);
    shift := LaneShift(gridX - x0, minX, maxX);
  }

  /** The move a grid drag step applies: every selected note moves by xDiff lanes and, when `moveTime`, by tDiff ms. */
  method ShiftNotes(ns: seq<Note>, xDiff: real, tDiff: int, moveTime: bool)
    requires Distinct(ns)
    modifies ns
    ensures forall i :: 0 <= i < |ns| ==> ns[i].x == old(ns[i].x) + xDiff
    ensures forall i :: 0 <= i < |ns| ==> ns[i].ms == if moveTime then old(ns[i].ms) + tDiff else old(ns[i].ms)
    ensures forall n :: n in ns ==> n.dragStartMs == old(n.dragStartMs) && n.selected == old(n.selected)
  {
    var i := 0;
    while i < |ns|
      invariant 0 <= i <= |ns|
      invariant forall j :: 0 <= j < i ==> ns[j].x == old(ns[j].x) + xDiff
      invariant forall j :: 0 <= j < i ==> ns[j].ms == if moveTime then old(ns[j].ms) + tDiff else old(ns[j].ms)
      invariant forall j :: i <= j < |ns| ==> ns[j].x == old(ns[j].x) && ns[j].ms == old(ns[j].ms)
      invariant forall n :: n in ns ==> n.dragStartMs == old(n.dragStartMs) && n.selected == old(n.selected)
    {
      ns[i].x := ns[i].x + xDiff;
      if moveTime {
        ns[i].ms := ns[i].ms + tDiff;
      }
      i := i + 1;
    }
  }

  /**
   * A grid drag step keeps a selection inside the lanes: if every selected
   * note and the dragged note start in [0, 4], the clamped offset keeps
   * every one of them in [0, 4].
   */
  lemma DragStaysInLanes(vs: seq<NoteValue>, x0: real, gridX: real)
    requires LaneLow <= x0 <= LaneHigh
    requires forall i :: 0 <= i < |vs| ==> LaneLow <= vs[i].x <= LaneHigh
    ensures forall i :: 0 <= i < |vs| ==> LaneLow <= vs[i].x + DragShift(vs, x0, gridX) <= LaneHigh
    ensures LaneLow <= x0 + DragShift(vs, x0, gridX) <= LaneHigh
  {
    var minX, maxX := MinLane(vs, x0), MaxLane(vs, x0);
    assert LaneLow <= minX && maxX <= LaneHigh;
  }

  // ---------------------------------------------------------------------
  // Paste

  /** The earliest of a non-empty list of times (copied.Min(n => n.Ms)). */
  function MinOf(ms: seq<int>): int
    requires |ms| > 0
  {
    if |ms| == 1 then ms[0]
    else
      var rest := MinOf(ms[1..]);
      if ms[0] <= rest then ms[0] else rest
  }

  /** The earliest time is one of the times and no later than any of them. */
  lemma {:induction false} MinOfIsMin(ms: seq<int>)
    requires |ms| > 0
    ensures forall i :: 0 <= i < |ms| ==> MinOf(ms) <= ms[i]
    ensures exists i :: 0 <= i < |ms| && ms[i] == MinOf(ms)
  {
    if |ms| == 1 {
      assert ms[0] == MinOf(ms);
    } else {
      MinOfIsMin(ms[1..]);
      assert forall i :: 1 <= i < |ms| ==> ms[i] == ms[1..][i - 1];
      var j :| 0 <= j < |ms[1..]| && ms[1..][j] == MinOf(ms[1..]);
      if ms[0] <= MinOf(ms[1..]) {
        assert ms[0] == MinOf(ms);
      } else {
        assert ms[j + 1] == MinOf(ms);
      }
    }
  }

  /** The times of pasted notes: moved so that the earliest lands on `base`. */
  function PastedTimes(ms: seq<int>, base: int): (r: seq<int>)
    requires |ms| > 0
    ensures |r| == |ms|
    ensures forall i :: 0 <= i < |ms| ==> r[i] == base + ms[i] - MinOf(ms)
  {
    seq(|ms|, i requires 0 <= i < |ms| => base + ms[i] - MinOf(ms))
  }

  /** A paste puts its earliest note at `base` and keeps the spacing of every pair. */
  lemma PastedTimesSpacing(ms: seq<int>, base: int)
    requires |ms| > 0
    ensures MinOf(PastedTimes(ms, base)) == base
    ensures forall i, j :: 0 <= i < |ms| && 0 <= j < |ms| ==> PastedTimes(ms, base)[i] - PastedTimes(ms, base)[j] == ms[i] - ms[j]
  {
    var r := PastedTimes(ms, base);
    MinOfIsMin(ms);
    MinOfIsMin(r);
    var k :| 0 <= k < |ms| && ms[k] == MinOf(ms);
    assert r[k] == base;
    var m := MinOf(r);
    var j :| 0 <= j < |r| && r[j] == m;
    assert m <= r[k] && r[j] >= base;
  }

  /** copied.Min(n => n.Ms), as a scan. */
  method EarliestTime(ns: seq<Note>) returns (m: int)
    requires |ns| > 0
    ensures m == MinOf(Times(ns))
  {
    ghost var ms := Times(ns);
    m := ns[0].ms;
    var k := 1;
    while k < |ns|
      invariant 1 <= k <= |ns|
      invariant m == MinOf(ms[..k])
    {
      MinOfSnoc(ms[..k], ms[k]);
      assert ms[..k] + [ms[k]] == ms[..k + 1];
      m := MinInt(m, ns[k].ms);
      k := k + 1;
    }
    assert ms[..|ns|] == ms;
  }

  /** Every note of a duplicate-free list moved by the same number of ms. */
  method MoveTimes(ns: seq<Note>, delta: int)
    requires Distinct(ns)
    modifies ns
    ensures forall i :: 0 <= i < |ns| ==> ns[i].ms == old(ns[i].ms) + delta
    ensures forall n :: n in ns ==> n.x == old(n.x) && n.dragStartMs == old(n.dragStartMs) && n.selected == old(n.selected)
  {
    var i := 0;
    while i < |ns|
      invariant 0 <= i <= |ns|
      invariant forall j :: 0 <= j < i ==> ns[j].ms == old(ns[j].ms) + delta
      invariant forall j :: i <= j < |ns| ==> ns[j].ms == old(ns[j].ms)
      invariant forall n :: n in ns ==> n.x == old(n.x) && n.dragStartMs == old(n.dragStartMs) && n.selected == old(n.selected)
    {
      ns[i].ms := ns[i].ms + delta;
      i := i + 1;
    }
  }

  /** The paste's ForEach: every copied note moves by the same amount so the earliest sits at `base`. */
  method ShiftToTime(ns: seq<Note>, base: int)
    requires |ns| > 0 && Distinct(ns)
    modifies ns
    ensures Times(ns) == PastedTimes(old(Times(ns)), base)
    ensures forall n :: n in ns ==> n.x == old(n.x) && n.dragStartMs == old(n.dragStartMs) && n.selected == old(n.selected)
  {
    ghost var before := Times(ns);
    var offset := EarliestTime(ns);
    MoveTimes(ns, base - offset);
    ghost var expected := PastedTimes(before, base);
    assert forall i :: 0 <= i < |ns| ==> Times(ns)[i] == expected[i];
  }

  lemma {:induction false} MinOfSnoc(ms: seq<int>, m: int)
    requires |ms| > 0
    ensures MinOf(ms + [m]) == MinInt(MinOf(ms), m)
  {
    var s := ms + [m];
    if |ms| > 1 {
      assert s[1..] == ms[1..] + [m];
      MinOfSnoc(ms[1..], m);
    } else {
      assert s[1..] == [m];
    }
  }

  /** The paste's optional scale: every copied note's lane scaled by `scale` percent. */
  method ScaleLanes(ns: seq<Note>, scale: real)
    requires Distinct(ns)
    modifies ns
    ensures forall i :: 0 <= i < |ns| ==> ns[i].x == Scaled(old(ns[i].x), scale)
    ensures OthersKept(ns)
  {
    var i := 0;
    while i < |ns|
      invariant 0 <= i <= |ns|
      invariant forall j :: 0 <= j < i ==> ns[j].x == Scaled(old(ns[j].x), scale)
      invariant forall j :: i <= j < |ns| ==> ns[j].x == old(ns[j].x)
      invariant OthersKept(ns)
    {
      ns[i].x := ClampReal((ns[i].x - 2.0) * (scale / 100.0) + 2.0, LaneLow, LaneHigh);
      i := i + 1;
    }
  }

  // ---------------------------------------------------------------------
  // New notes

  /** TWEEN's notes: one fresh note per generated point, lane X and time (long)Y. */
  method NotesAt(points: seq<(real, real)>) returns (ns: seq<Note>)
    ensures |ns| == |points|
    ensures Distinct(ns)
    ensures forall i :: 0 <= i < |ns| ==> fresh(ns[i])
    ensures forall i :: 0 <= i < |ns| ==> ns[i].x == points[i].0 && ns[i].ms == Trunc(points[i].1)
    ensures forall i :: 0 <= i < |ns| ==> ns[i].dragStartMs == 0 && !ns[i].selected
  {
    ns := [];
    var i := 0;
    while i < |points|
      invariant 0 <= i <= |points|
      invariant |ns| == i
      invariant Distinct(ns)
      invariant forall j :: 0 <= j < i ==> fresh(ns[j])
      invariant forall j :: 0 <= j < i ==> ns[j].x == points[j].0 && ns[j].ms == Trunc(points[j].1)
      invariant forall j :: 0 <= j < i ==> ns[j].dragStartMs == 0 && !ns[j].selected
    {
      var n := new Note(points[i].0, Trunc(points[i].1));
      ns := ns + [n];
      i := i + 1;
    }
  }

  /** Fresh notes with the given lanes and times: the notes a paste reads from the clipboard. */
  method NotesOf(vs: seq<NoteValue>) returns (ns: seq<Note>)
    ensures |ns| == |vs|
    ensures Distinct(ns)
    ensures forall i :: 0 <= i < |ns| ==> fresh(ns[i])
    ensures Values(ns) == vs
    ensures forall i :: 0 <= i < |ns| ==> ns[i].dragStartMs == 0 && !ns[i].selected
  {
    ns := [];
    var i := 0;
    while i < |vs|
      invariant 0 <= i <= |vs|
      invariant |ns| == i
      invariant Distinct(ns)
      invariant forall j :: 0 <= j < i ==> fresh(ns[j])
      invariant forall j :: 0 <= j < i ==> ValueOf(ns[j]) == vs[j]
      invariant forall j :: 0 <= j < i ==> ns[j].dragStartMs == 0 && !ns[j].selected
    {
      var n := new Note(vs[i].x, vs[i].ms);
      ns := ns + [n];
      i := i + 1;
    }
  }
}
