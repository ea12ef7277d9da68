// Timing points and the snapping rules built on them (MainWindow's
// GetCurrentBpm, GetClosestBeat, GetClosestBeatScroll and GetClosestNote).
// Point and note times are whole milliseconds. The query time, the BPM and
// the beat interval are single-precision values in the editor; here they
// are idealised as exact reals.

module Timing {
  import opened Common
  import opened Notes

  /** A timing point: a BPM from a given time on. Dragging changes its time in place. */
  class TimingPoint {
    var bpm: real
    var ms: int
    var dragStartMs: int

    constructor (bpm: real, ms: int)
      ensures this.bpm == bpm && this.ms == ms && dragStartMs == 0
    {
      this.bpm := bpm;
      this.ms := ms;
      dragStartMs := 0;
    }
  }

  /** What a timing point says about the map. */
  datatype Tempo = Tempo(bpm: real, ms: int)

  function TempoOf(p: TimingPoint): Tempo
    reads p
  {
    Tempo(p.bpm, p.ms)
  }

  function Tempos(ps: seq<TimingPoint>): (ts: seq<Tempo>)
    reads ps
    ensures |ts| == |ps|
    ensures forall i :: 0 <= i < |ps| ==> ts[i] == TempoOf(ps[i])
  {
    seq(|ps|, i requires 0 <= i < |ps| reads ps => TempoOf(ps[i]))
  }

  /** The times of a list of notes, in list order. */
  function Times(ns: seq<Note>): (ms: seq<int>)
    reads ns
    ensures |ms| == |ns|
    ensures forall i :: 0 <= i < |ns| ==> ms[i] == ns[i].ms
  {
    seq(|ns|, i requires 0 <= i < |ns| reads ns => ns[i].ms)
  }

  /** What GetCurrentBpm answers when no point applies: a fresh TimingPoint(0, 0). */
  const NoTempo := Tempo(0.0, 0)

  /**
   * A point applies at time t when it starts before t, or exactly at t
   * unless a point is being dragged.
   */
  predicate Applies(p: Tempo, t: real, dragging: bool)
  {
    (p.ms as real) < t || (!dragging && p.ms as real == t)
  }

  /** The index of the last point in list order that applies at t, or -1 when none does. */
  function LastApplying(ts: seq<Tempo>, t: real, dragging: bool): (k: int)
    ensures -1 <= k < |ts|
    ensures k >= 0 ==> Applies(ts[k], t, dragging)
    ensures forall j :: k < j < |ts| ==> !Applies(ts[j], t, dragging)
  {
    if ts == [] then -1
    else if Applies(ts[|ts| - 1], t, dragging) then |ts| - 1
    else LastApplying(ts[..|ts| - 1], t, dragging)
  }

  /** The tempo in force at t. */
  function CurrentBpm(ts: seq<Tempo>, t: real, dragging: bool): Tempo
  {
    var k := LastApplying(ts, t, dragging);
    if k < 0 then NoTempo else ts[k]
  }

  /**
   * GetCurrentBpm: scans every point and keeps the last one that applies.
   * The list is not assumed to be sorted.
   */
  method GetCurrentBpm(points: seq<TimingPoint>, t: real, dragging: bool) returns (current: Tempo)
    ensures current == CurrentBpm(Tempos(points), t, dragging)
  {
    ghost var ts := Tempos(points);
    current := NoTempo;
    var i := 0;
    while i < |points|
      invariant 0 <= i <= |points|
      invariant current == CurrentBpm(ts[..i], t, dragging)
    {
      var point := points[i];
      assert ts[..i + 1][..i] == ts[..i];
      if point.ms as real < t || (!dragging && point.ms as real == t) {
        current := Tempo(point.bpm, point.ms);
      }
      i := i + 1;
    }
    assert ts[..|points|] == ts;
  }

  /** The answer is either the placeholder with no applicable point, or the last applicable point. */
  lemma CurrentBpmIsLastApplying(ts: seq<Tempo>, t: real, dragging: bool)
    ensures CurrentBpm(ts, t, dragging) == NoTempo
        || exists k :: 0 <= k < |ts| && CurrentBpm(ts, t, dragging) == ts[k] && Applies(ts[k], t, dragging)
    ensures (forall j :: 0 <= j < |ts| ==> !Applies(ts[j], t, dragging)) ==> CurrentBpm(ts, t, dragging) == NoTempo
  {
    var k := LastApplying(ts, t, dragging);
    if k >= 0 {
      assert CurrentBpm(ts, t, dragging) == ts[k];
    }
  }

  /** The length of one subdivided beat: 60 / bpm * 1000 / (divisor + 1) milliseconds. */
  function Interval(bpm: real, divisor: real): (r: real)
    requires bpm > 0.0 && divisor > -1.0
    ensures r > 0.0
  {
    var perBeat := 60.0 / bpm * 1000.0;
    DivPositive(60.0, bpm);
    DivPositive(perBeat, divisor + 1.0);
    perBeat / (divisor + 1.0)
  }

  /** The k-th grid line of a tempo that starts at origin. */
  function GridLine(origin: int, k: int, interval: real): real
  {
    origin as real + k as real * interval
  }

  /**
   * The grid line nearest to t among origin + k * interval: the offset is
   * origin % interval (C# remainder), and the multiple is rounded half to even.
   */
  function Snap(t: real, origin: int, interval: real): (s: real)
    requires interval > 0.0
    ensures AbsReal(s - t) <= interval / 2.0
    ensures exists k: int :: s == GridLine(origin, k, interval)
  {
    var offset := RealRem(origin as real, interval);
    var x := (t - offset) / interval;
    var k := RoundHalfEven(x);
    SnapBounds(t, offset, interval, x, k);
    SnapOnGrid(origin, interval, offset, k);
    k as real * interval + offset
  }

  lemma SnapBounds(t: real, offset: real, interval: real, x: real, k: int)
    requires interval > 0.0 && x == (t - offset) / interval
    requires AbsReal(x - k as real) <= 0.5
    ensures AbsReal(k as real * interval + offset - t) <= interval / 2.0
  {
    var d := k as real - x;
    assert x * interval == t - offset by {
      DivTimes(t - offset, interval);
    }
    assert k as real * interval + offset - t == d * interval by {
      Distribute(k as real, x, interval);
    }
    if d >= 0.0 {
      assert d * interval <= 0.5 * interval by {
        MulLe(d, 0.5, interval);
      }
    } else {
      assert (-d) * interval <= 0.5 * interval by {
        MulLe(-d, 0.5, interval);
      }
      assert (-d) * interval == -(d * interval);
    }
  }

  lemma SnapOnGrid(origin: int, interval: real, offset: real, k: int)
    requires interval > 0.0 && offset == RealRem(origin as real, interval)
    ensures exists j: int :: k as real * interval + offset == GridLine(origin, j, interval)
  {
    var q := Trunc(origin as real / interval);
    assert offset == origin as real - q as real * interval;
    Distribute(k as real, q as real, interval);
    assert k as real * interval + offset == GridLine(origin, k - q, interval);
  }

  /**
   * The beat GetClosestBeat picks for tempo p before the cap: -1 without a
   * positive BPM, otherwise the nearest grid line rounded to a whole millisecond.
   */
  function SnappedBeat(p: Tempo, t: real, divisor: real): int
    requires divisor > -1.0
  {
    if p.bpm > 0.0 then RoundHalfEven(Snap(t, p.ms, Interval(p.bpm, divisor))) else -1
  }

  /**
   * GetClosestBeat's answer: the snapped beat of the tempo in force at t,
   * capped at the song length maxMs (and cast to long).
   */
  function ClosestBeat(ts: seq<Tempo>, t: real, dragging: bool, divisor: real, maxMs: real): (r: int)
    requires divisor > -1.0
    ensures CurrentBpm(ts, t, dragging).bpm <= 0.0 && maxMs >= -1.0 ==> r == -1
    ensures maxMs >= 0.0 ==> r as real <= maxMs
  {
    Trunc(MinReal(SnappedBeat(CurrentBpm(ts, t, dragging), t, divisor) as real, maxMs))
  }

  /** A snapped beat lies within half a subdivided beat (plus the rounding) of t, and within rounding of a grid line. */
  lemma SnappedBeatNear(p: Tempo, t: real, divisor: real)
    requires divisor > -1.0 && p.bpm > 0.0
    ensures AbsReal(SnappedBeat(p, t, divisor) as real - t) <= Interval(p.bpm, divisor) / 2.0 + 0.5
    ensures exists k: int :: AbsReal(SnappedBeat(p, t, divisor) as real - GridLine(p.ms, k, Interval(p.bpm, divisor))) <= 0.5
  {
    var interval := Interval(p.bpm, divisor);
    var s := Snap(t, p.ms, interval);
    var k: int :| s == GridLine(p.ms, k, interval);
    assert AbsReal(SnappedBeat(p, t, divisor) as real - GridLine(p.ms, k, interval)) <= 0.5;
  }

  /**
   * Below the cap, GetClosestBeat lies within half a subdivided beat (plus
   * the final rounding) of t, and within rounding of a beat of the tempo in force.
   */
  lemma ClosestBeatNear(ts: seq<Tempo>, t: real, dragging: bool, divisor: real, maxMs: real)
    requires divisor > -1.0
    requires CurrentBpm(ts, t, dragging).bpm > 0.0
    requires SnappedBeat(CurrentBpm(ts, t, dragging), t, divisor) as real <= maxMs
    ensures ClosestBeat(ts, t, dragging, divisor, maxMs) == SnappedBeat(CurrentBpm(ts, t, dragging), t, divisor)
    ensures AbsReal(ClosestBeat(ts, t, dragging, divisor, maxMs) as real - t)
         <= Interval(CurrentBpm(ts, t, dragging).bpm, divisor) / 2.0 + 0.5
  {
    SnappedBeatNear(CurrentBpm(ts, t, dragging), t, divisor);
  }

  /** GetClosestBeat: the tempo in force, then the snapping arithmetic. */
  method GetClosestBeat(points: seq<TimingPoint>, t: real, dragging: bool, divisor: real, maxMs: real)
    returns (r: int)
    requires divisor > -1.0
    ensures r == ClosestBeat(Tempos(points), t, dragging, divisor, maxMs)
  {
    var closest := -1;
    var point := GetCurrentBpm(points, t, dragging);
    if point.bpm > 0.0 {
      var interval := Interval(point.bpm, divisor);
      closest := RoundHalfEven(Snap(t, point.ms, interval));
    }
    r := Trunc(MinReal(closest as real, maxMs));
  }

  /**
   * (long)(60000 / bpm / (divisor + 1)): the step GetClosestBeatScroll moves
   * by. A BPM of 0 makes the interval infinite; what the cast to long makes of
   * that is platform behaviour, supplied as infStep.
   */
  function ScrollStep(bpm: real, divisor: real, infStep: int): int
    requires divisor > -1.0
  {
    if bpm == 0.0 then infStep else Trunc(60000.0 / bpm / (divisor + 1.0))
  }

  /** One iteration of GetClosestBeatScroll's loop, from query time cur and the beat found so far. */
  function ScrollOnce(ts: seq<Tempo>, cur: real, closest: int, negative: bool, divisor: real, maxMs: real, infStep: int): int
    requires divisor > -1.0
  {
    var step := ScrollStep(CurrentBpm(ts, cur, negative).bpm, divisor, infStep);
    if negative then BackFrom(ts, cur, step, divisor, maxMs)
    else ForwardFrom(ts, cur, closest, step, divisor, maxMs)
  }

  /** Backwards: the beat at or before cur, and when that is not before cur, the beat a step earlier. */
  function BackFrom(ts: seq<Tempo>, cur: real, step: int, divisor: real, maxMs: real): int
    requires divisor > -1.0
  {
    var c := ClosestBeat(ts, cur, true, divisor, maxMs);
    if c as real >= cur then ClosestBeat(ts, (c - step) as real, false, divisor, maxMs) else c
  }

  /**
   * Forwards: a step past the beat found so far when that is not after cur;
   * then, if the result lies under a different timing point, that point's start.
   */
  function ForwardFrom(ts: seq<Tempo>, cur: real, closest: int, step: int, divisor: real, maxMs: real): int
    requires divisor > -1.0
  {
    var c := if closest as real <= cur then ClosestBeat(ts, (closest + step) as real, false, divisor, maxMs) else closest;
    var here := CurrentBpm(ts, cur, false);
    var there := CurrentBpm(ts, c as real, false);
    if here.ms != there.ms then there.ms else c
  }

  /** n iterations, each starting from the beat the previous one found. */
  function ScrollIterate(ts: seq<Tempo>, cur: real, closest: int, n: int, negative: bool, divisor: real, maxMs: real, infStep: int): int
    requires divisor > -1.0
    decreases n
  {
    if n <= 0 then closest
    else
      var c := ScrollOnce(ts, cur, closest, negative, divisor, maxMs, infStep);
      ScrollIterate(ts, c as real, c, n - 1, negative, divisor, maxMs, infStep)
  }

  /**
   * GetClosestBeatScroll's answer: -1 when the beat nearest to t has no
   * tempo, or when the scrolled beat is negative; otherwise the scrolled beat
   * clamped to [0, maxMs].
   */
  function ClosestBeatScroll(ts: seq<Tempo>, t: real, negative: bool, iterations: int, divisor: real, maxMs: real, infStep: int): (r: int)
    requires divisor > -1.0
    ensures r == -1 || 0 <= r
    ensures maxMs >= 0.0 ==> r as real <= maxMs
    ensures CurrentBpm(ts, ClosestBeat(ts, t, false, divisor, maxMs) as real, false).bpm == 0.0 ==> r == -1
  {
    var c0 := ClosestBeat(ts, t, false, divisor, maxMs);
    if CurrentBpm(ts, c0 as real, false).bpm == 0.0 then -1
    else
      var c := ScrollIterate(ts, t, c0, iterations, negative, divisor, maxMs, infStep);
      if c < 0 then -1 else Trunc(ClampReal(c as real, 0.0, maxMs))
  }

  /** GetClosestBeatScroll: the same steps with a counted loop. */
  method GetClosestBeatScroll(points: seq<TimingPoint>, t: real, negative: bool, iterations: int,
                              divisor: real, maxMs: real, infStep: int)
    returns (r: int)
    requires divisor > -1.0
    ensures r == ClosestBeatScroll(Tempos(points), t, negative, iterations, divisor, maxMs, infStep)
  {
    ghost var ts := Tempos(points);
    var closest := GetClosestBeat(points, t, false, divisor, maxMs);
    var atClosest := GetCurrentBpm(points, closest as real, false);
    if atClosest.bpm == 0.0 {
      return -1;
    }
    ghost var c0 := closest;
    var cur := t;
    var i := 0;
    while i < iterations
      invariant ScrollIterate(ts, cur, closest, iterations - i, negative, divisor, maxMs, infStep)
             == ScrollIterate(ts, t, c0, iterations, negative, divisor, maxMs, infStep)
      decreases iterations - i
    {
      closest := ScrollBody(points, cur, closest, negative, divisor, maxMs, infStep);
      cur := closest as real;
      i := i + 1;
    }
    if closest < 0 {
      return -1;
    }
    r := Trunc(ClampReal(closest as real, 0.0, maxMs));
  }

  /** The body of GetClosestBeatScroll's loop. */
  method ScrollBody(points: seq<TimingPoint>, cur: real, closest: int, negative: bool,
                    divisor: real, maxMs: real, infStep: int)
    returns (next: int)
    requires divisor > -1.0
    ensures next == ScrollOnce(Tempos(points), cur, closest, negative, divisor, maxMs, infStep)
  {
    ghost var ts := Tempos(points);
    var point := GetCurrentBpm(points, cur, negative);
    var step := ScrollStep(point.bpm, divisor, infStep);
    if negative {
      next := ScrollBack(points, cur, step, divisor, maxMs);
    } else {
      next := ScrollForward(points, cur, closest, step, divisor, maxMs);
    }
  }

  /** The backward branch: the beat before cur (the beat at cur itself does not count). */
  method ScrollBack(points: seq<TimingPoint>, cur: real, step: int, divisor: real, maxMs: real)
    returns (next: int)
    requires divisor > -1.0
    ensures next == BackFrom(Tempos(points), cur, step, divisor, maxMs)
  {
    next := GetClosestBeat(points, cur, true, divisor, maxMs);
    if next as real >= cur {
      next := GetClosestBeat(points, (next - step) as real, false, divisor, maxMs);
    }
  }

  /** The forward branch: the beat after cur, or the start of the next timing point if that comes first. */
  method ScrollForward(points: seq<TimingPoint>, cur: real, closest: int, step: int, divisor: real, maxMs: real)
    returns (next: int)
    requires divisor > -1.0
    ensures next == ForwardFrom(Tempos(points), cur, closest, step, divisor, maxMs)
  {
    next := closest;
    if next as real <= cur {
      next := GetClosestBeat(points, (next + step) as real, false, divisor, maxMs);
    }
    var here := GetCurrentBpm(points, cur, false);
    var there := GetCurrentBpm(points, next as real, false);
    if here.ms != there.ms {
      next := there.ms;
    }
  }

  /** Distance in milliseconds from a note time to the query time. */
  function Dist(m: int, t: real): real
  {
    AbsReal(m as real - t)
  }

  /** The time a candidate index stands for: -1 for GetClosestNote's starting value. */
  function Candidate(ms: seq<int>, k: int): int
    requires -1 <= k < |ms|
  {
    if k < 0 then -1 else ms[k]
  }

  /**
   * The note GetClosestNote settles on, as written: the running candidate
   * starts at the time -1 and is replaced only by a strictly closer note.
   * The result is -1 when no note is strictly closer than -1.
   */
  function ClosestIndex(ms: seq<int>, t: real): (k: int)
    ensures -1 <= k < |ms|
    ensures Dist(Candidate(ms, k), t) <= Dist(-1, t)
    ensures forall i :: 0 <= i < |ms| ==> Dist(Candidate(ms, k), t) <= Dist(ms[i], t)
    ensures k >= 0 ==> Dist(ms[k], t) < Dist(-1, t)
    ensures k >= 0 ==> forall j :: 0 <= j < k ==> Dist(ms[k], t) < Dist(ms[j], t)
  {
    if ms == [] then -1
    else
      var k := ClosestIndex(ms[..|ms| - 1], t);
      if Dist(ms[|ms| - 1], t) < Dist(Candidate(ms[..|ms| - 1], k), t) then |ms| - 1 else k
  }

  function ClosestNote(ms: seq<int>, t: real): int
  {
    Candidate(ms, ClosestIndex(ms, t))
  }

  /** GetClosestNote as written. */
  method GetClosestNote(notes: seq<Note>, t: real) returns (closest: int)
    ensures closest == ClosestNote(Times(notes), t)
  {
    ghost var ms := Times(notes);
    closest := -1;
    var i := 0;
    while i < |notes|
      invariant 0 <= i <= |notes|
      invariant closest == ClosestNote(ms[..i], t)
    {
      assert ms[..i + 1][..i] == ms[..i];
      var note := notes[i];
      if AbsReal(note.ms as real - t) < AbsReal(closest as real - t) {
        closest := note.ms;
      }
      i := i + 1;
    }
    assert ms[..|notes|] == ms;
  }

  /**
   * As written, the result is -1 or the time of a note; it is at least as
   * close as every note, and among equally close notes the earliest wins.
   */
  lemma ClosestNoteIsClosest(ms: seq<int>, t: real)
    ensures ClosestNote(ms, t) == -1 || ClosestNote(ms, t) in ms
    ensures forall i :: 0 <= i < |ms| ==> Dist(ClosestNote(ms, t), t) <= Dist(ms[i], t)
    ensures ClosestNote(ms, t) != -1 ==>
      exists k :: 0 <= k < |ms| && ms[k] == ClosestNote(ms, t) && forall j :: 0 <= j < k ==> Dist(ms[k], t) < Dist(ms[j], t)
  {
    var k := ClosestIndex(ms, t);
    if k >= 0 {
      assert ms[k] == ClosestNote(ms, t);
    }
  }

  /**
   * The starting candidate -1 takes part in the comparison: a query at 0
   * over a single note at 5 answers -1, although a note exists.
   */
  lemma ClosestNoteMissesNote()
    ensures ClosestNote([5], 0.0) == -1
  {
    var ms := [5];
    assert ms[..0] == [];
    assert ClosestIndex(ms[..0], 0.0) == -1;
  }

  /** The corrected choice: the earliest of the closest notes, with no candidate before the first note. */
  function NearestIndex(ms: seq<int>, t: real): (k: int)
    requires |ms| > 0
    ensures 0 <= k < |ms|
  {
    if |ms| == 1 then 0
    else
      var k := NearestIndex(ms[..|ms| - 1], t);
      if Dist(ms[|ms| - 1], t) < Dist(ms[k], t) then |ms| - 1 else k
  }

  /** The chosen note is at least as close as every note, and strictly closer than every earlier one. */
  lemma {:induction false} NearestIndexIsNearest(ms: seq<int>, t: real)
    requires |ms| > 0
    ensures var k := NearestIndex(ms, t);
      && (forall i :: 0 <= i < |ms| ==> Dist(ms[k], t) <= Dist(ms[i], t))
      && (forall j :: 0 <= j < k ==> Dist(ms[k], t) < Dist(ms[j], t))
  {
    if |ms| > 1 {
      var front := ms[..|ms| - 1];
      NearestIndexIsNearest(front, t);
      var k := NearestIndex(front, t);
      assert forall i :: 0 <= i < |front| ==> front[i] == ms[i];
    }
  }

  /** The corrected GetClosestNote: -1 exactly when there are no notes, otherwise the nearest note's time. */
  function NearestNote(ms: seq<int>, t: real): (r: int)
    ensures ms == [] ==> r == -1
    ensures ms != [] ==> r in ms && forall i :: 0 <= i < |ms| ==> Dist(r, t) <= Dist(ms[i], t)
  {
    if ms == [] then -1 else NearestIndexIsNearest(ms, t); ms[NearestIndex(ms, t)]
  }

  /** One more note for the corrected scan: it is chosen only when strictly closer than the choice so far. */
  lemma NearestIndexStep(ms: seq<int>, i: int, t: real)
    requires 1 <= i < |ms|
    ensures var k := NearestIndex(ms[..i], t);
      NearestIndex(ms[..i + 1], t) == if Dist(ms[i], t) < Dist(ms[k], t) then i else k
  {
    assert ms[..i + 1][..i] == ms[..i];
  }

  /** The corrected scan: the first note is taken unconditionally, later ones only when strictly closer. */
  method GetNearestNote(notes: seq<Note>, t: real) returns (nearest: int)
    ensures nearest == NearestNote(Times(notes), t)
  {
    ghost var ms := Times(notes);
    if |notes| == 0 {
      return -1;
    }
    nearest := notes[0].ms;
    ghost var k := 0;
    var i := 1;
    while i < |notes|
      invariant 1 <= i <= |notes|
      invariant k == NearestIndex(ms[..i], t) && nearest == ms[k]
    {
      NearestIndexStep(ms, i, t);
      var note := notes[i];
      if AbsReal(note.ms as real - t) < AbsReal(nearest as real - t) {
        nearest := note.ms;
        k := i;
      }
      i := i + 1;
    }
    assert ms[..|notes|] == ms;
  }

  /** On the input that shows the discrepancy, the corrected scan finds the note. */
  lemma NearestNoteFindsNote()
    ensures NearestNote([5], 0.0) == 5
  {}
}
