// MainWindow.LoadLegacyProperties: the KEY=value property text of older
// map files, one property per line. BPM and Bookmarks add to the lists and
// re-sort them; Offset either moves the first timing point (files from
// before timing points, recognised by a BPM entry without '|') or re-bases
// every note on the new export offset; Time and Divisor set the settings.
// A key the parser knows, written without '=', throws.

module Legacy {
  import opened Common
  import opened Text
  import opened Notes
  import opened Timing
  import opened Bookmarks
  import opened Sorting
  import opened TimeOrder
  import opened Edits
  import opened Editing

  /** What the property text can change in the editing context. */
  datatype Props = Props(points: seq<Tempo>, bookmarks: seq<Bookmark>, noteMs: seq<int>,
                         exportOffset: real, currentTime: real, beatDivisor: real)

  function PropsOf(e: Editor): Props
    reads e, e.notes, e.timingPoints
  {
    Props(Tempos(e.timingPoints), e.bookmarks, Times(e.notes), e.exportOffset, e.currentTime, e.beatDivisor)
  }

  // ---------------------------------------------------------------------
  // Entries of the BPM and Bookmarks properties

  /** A BPM entry without '|': the format from before timing points had times. */
  predicate OldFormat(entry: string)
  {
    |Split(entry, '|')| == 1
  }

  /** A BPM entry "bpm|ms"; a bare "bpm" is read as "bpm|0". */
  function PointEntry(entry: string): Option<Tempo>
  {
    var fields := Split(entry, '|');
    var fields' := if |fields| == 1 then [fields[0], "0"] else fields;
    if |fields'| == 2 then
      match (ParseDecimal(fields'[0]), ParseInt(fields'[1]))
      case (Some(bpm), Some(ms)) => Some(Tempo(bpm, ms))
      case _ => None
    else None
  }

  /** The points the entries add, in entry order; unreadable entries are skipped. */
  function ReadPoints(entries: seq<string>): seq<Tempo>
  {
    if entries == [] then [] else ReadPoints(entries[..|entries| - 1]) + EntryPoints(entries[|entries| - 1])
  }

  function EntryPoints(entry: string): seq<Tempo>
  {
    match PointEntry(entry)
    case Some(t) => [t]
    case None => []
  }

  predicate AnyOldFormat(entries: seq<string>)
  {
    entries != [] && (AnyOldFormat(entries[..|entries| - 1]) || OldFormat(entries[|entries| - 1]))
  }

  /** A Bookmarks entry "text|ms" (a single point) or "text|start|end". */
  function LegacyBookmark(entry: string): (r: Option<Bookmark>)
    ensures r.Some? ==> r.value.text == Split(entry, '|')[0]
    ensures r.Some? && |Split(entry, '|')| == 2 ==> r.value.ms == r.value.endMs
  {
    var fields := Split(entry, '|');
    if |fields| == 2 then
      match ParseInt(fields[1])
      case Some(ms) => Some(Bookmark(fields[0], ms, ms))
      case None => None
    else if |fields| == 3 then
      match (ParseInt(fields[1]), ParseInt(fields[2]))
      case (Some(s), Some(t)) => Some(Bookmark(fields[0], s, t))
      case _ => None
    else None
  }

  function ReadLegacyBookmarks(entries: seq<string>): seq<Bookmark>
  {
    if entries == [] then []
    else
      var front := ReadLegacyBookmarks(entries[..|entries| - 1]);
      match LegacyBookmark(entries[|entries| - 1])
      case Some(b) => front + [b]
      case None => front
  }

  // ---------------------------------------------------------------------
  // The effect of one line and of the whole text

  function WithPoints(p: Props, entries: seq<string>): Props
  {
    p.(points := TemposByTime(p.points + ReadPoints(entries)))
  }

  function WithBookmarks(p: Props, entries: seq<string>): Props
  {
    p.(bookmarks := BookmarksByTime(p.bookmarks + ReadLegacyBookmarks(entries)))
  }

  function Shifted(ms: seq<int>, d: int): (r: seq<int>)
    ensures |r| == |ms|
    ensures forall i :: 0 <= i < |ms| ==> r[i] == ms[i] + d
  {
    seq(|ms|, i requires 0 <= i < |ms| => ms[i] + d)
  }

  /**
   * Offset: in the old format it is the first point's time; otherwise the
   * notes are moved out by the (truncated) old export offset and back in by
   * the new one, which stays the old one when the value does not parse.
   */
  function WithOffset(p: Props, oldVer: bool, value: string): Props
  {
    if oldVer then
      match ParseInt(value)
      case Some(v) =>
        if |p.points| > 0 then p.(points := p.points[0 := p.points[0].(ms := v)]) else p
      case None => p
    else
      var offset := match ParseInt(value) case Some(v) => v as real case None => p.exportOffset;
      p.(noteMs := Shifted(Shifted(p.noteMs, Trunc(p.exportOffset)), -Trunc(offset)), exportOffset := offset)
  }

  function WithTime(p: Props, value: string): Props
  {
    match ParseInt(value)
    case Some(t) => p.(currentTime := t as real)
    case None => p
  }

  function WithDivisor(p: Props, value: string): Props
  {
    match ParseDecimal(value)
    case Some(d) => p.(beatDivisor := d - 1.0)
    case None => p
  }

  /** The state after some lines, whether an old-format BPM entry was seen, and whether no line threw. */
  datatype Loaded = Loaded(props: Props, oldVer: bool, ok: bool)

  predicate KnownKey(key: string)
  {
    key == "BPM" || key == "Bookmarks" || key == "Offset" || key == "Time" || key == "Divisor"
  }

  function LoadedLine(p: Props, oldVer: bool, line: string): Loaded
  {
    var split := Split(line, '=');
    var key := split[0];
    if !KnownKey(key) then Loaded(p, oldVer, true)
    else if |split| < 2 then Loaded(p, oldVer, false)
    else
      var value := split[1];
      if key == "BPM" then
        var entries := Split(value, ',');
        Loaded(WithPoints(p, entries), oldVer || AnyOldFormat(entries), true)
      else if key == "Bookmarks" then Loaded(WithBookmarks(p, Split(value, ',')), oldVer, true)
      else if key == "Offset" then Loaded(WithOffset(p, oldVer, value), oldVer, true)
      else if key == "Time" then Loaded(WithTime(p, value), oldVer, true)
      else Loaded(WithDivisor(p, value), oldVer, true)
  }

  /** The lines in order; the first line that throws ends the load, keeping what the earlier ones did. */
  function LoadedLines(p: Props, lines: seq<string>): Loaded
  {
    if lines == [] then Loaded(p, false, true)
    else
      var r := LoadedLines(p, lines[..|lines| - 1]);
      if r.ok then LoadedLine(r.props, r.oldVer, lines[|lines| - 1]) else r
  }

  // ---------------------------------------------------------------------
  // The parser

  /** The BPM property: add a point per readable entry, then SortTimings. */
  method LoadPoints(e: Editor, entries: seq<string>) returns (oldFormat: bool)
    requires Distinct(e.timingPoints)
    modifies e`timingPoints
    ensures PropsOf(e) == WithPoints(old(PropsOf(e)), entries)
    ensures oldFormat == AnyOldFormat(entries)
    ensures Distinct(e.timingPoints)
    ensures forall i :: 0 <= i < |e.timingPoints| ==> e.timingPoints[i] in old(e.timingPoints) || fresh(e.timingPoints[i])
  {
    ghost var p0 := PropsOf(e);
    oldFormat := AddPoints(e, entries);
    ghost var ps := e.timingPoints;
    assert PropsOf(e) == p0.(points := Tempos(ps));
    e.SortTimings();
    assert Tempos(e.timingPoints) == TemposByTime(Tempos(ps)) by {
      TemposOfSorted(ps);
    }
    SortedPointsFrom(ps);
  }

  /** SortTimings keeps a list without repeats without repeats, and brings in no point. */
  lemma SortedPointsFrom(ps: seq<TimingPoint>)
    requires Distinct(ps)
    ensures Distinct(PointsByTime(ps))
    ensures forall i :: 0 <= i < |PointsByTime(ps)| ==> PointsByTime(ps)[i] in ps
  {
    var qs := PointsByTime(ps);
    PointsByTimeSortsStably(ps, 0);
    DistinctPermutation(ps, qs);
    forall i | 0 <= i < |qs| ensures qs[i] in ps {
      assert qs[i] in multiset(qs);
    }
  }

  /** The loop of the BPM property: the points of the readable entries, at the end of the list. */
  method AddPoints(e: Editor, entries: seq<string>) returns (oldFormat: bool)
    requires Distinct(e.timingPoints)
    modifies e`timingPoints
    ensures Tempos(e.timingPoints) == old(Tempos(e.timingPoints)) + ReadPoints(entries)
    ensures oldFormat == AnyOldFormat(entries)
    ensures Distinct(e.timingPoints)
    ensures forall i :: 0 <= i < |e.timingPoints| ==> e.timingPoints[i] in old(e.timingPoints) || fresh(e.timingPoints[i])
  {
    ghost var ts := Tempos(e.timingPoints);
    oldFormat := false;
    var i := 0;
    while i < |entries|
      invariant 0 <= i <= |entries|
      invariant Tempos(e.timingPoints) == ts + ReadPoints(entries[..i])
      invariant oldFormat == AnyOldFormat(entries[..i])
      invariant Distinct(e.timingPoints)
      invariant forall i :: 0 <= i < |e.timingPoints| ==> e.timingPoints[i] in old(e.timingPoints) || fresh(e.timingPoints[i])
    {
      assert entries[..i + 1][..i] == entries[..i];
      var old' := AddPoint(e, entries[i]);
      oldFormat := oldFormat || old';
      i := i + 1;
    }
    assert entries[..i] == entries;
  }

  /** One BPM entry: a fresh point at the end of the list when the entry reads. */
  method AddPoint(e: Editor, entry: string) returns (oldFormat: bool)
    requires Distinct(e.timingPoints)
    modifies e`timingPoints
    ensures oldFormat == OldFormat(entry)
    ensures Tempos(e.timingPoints) == old(Tempos(e.timingPoints)) + EntryPoints(entry)
    ensures Distinct(e.timingPoints)
    ensures forall i :: 0 <= i < |e.timingPoints| ==> e.timingPoints[i] in old(e.timingPoints) || fresh(e.timingPoints[i])
  {
    var fields := Split(entry, '|');
    oldFormat := false;
    if |fields| == 1 {
      fields := [fields[0], "0"];
      oldFormat := true;
    }
    if |fields| == 2 {
      var bpm, ms := ParseDecimal(fields[0]), ParseInt(fields[1]);
      if bpm.Some? && ms.Some? {
        assert EntryPoints(entry) == [Tempo(bpm.value, ms.value)];
        AppendPoint(e, bpm.value, ms.value);
      }
    }
  }

  /** TimingPoints.Add(new TimingPoint(bpm, ms)). */
  method AppendPoint(e: Editor, bpm: real, ms: int)
    requires Distinct(e.timingPoints)
    modifies e`timingPoints
    ensures Tempos(e.timingPoints) == old(Tempos(e.timingPoints)) + [Tempo(bpm, ms)]
    ensures Distinct(e.timingPoints)
    ensures forall i :: 0 <= i < |e.timingPoints| ==> e.timingPoints[i] in old(e.timingPoints) || fresh(e.timingPoints[i])
  {
    var point := new TimingPoint(bpm, ms);
    ghost var ts := Tempos(e.timingPoints);
    e.timingPoints := e.timingPoints + [point];
    assert Tempos(e.timingPoints) == ts + [TempoOf(point)];
  }

  /** The Bookmarks property: add a bookmark per readable entry, then SortBookmarks. */
  method LoadBookmarks(e: Editor, entries: seq<string>)
    modifies e`bookmarks
    ensures PropsOf(e) == WithBookmarks(old(PropsOf(e)), entries)
  {
    ghost var p0 := PropsOf(e);
    var i := 0;
    while i < |entries|
      invariant 0 <= i <= |entries|
      invariant e.bookmarks == p0.bookmarks + ReadLegacyBookmarks(entries[..i])
    {
      assert entries[..i + 1][..i] == entries[..i];
      var fields := Split(entries[i], '|');
      if |fields| == 2 {
        var ms := ParseInt(fields[1]);
        if ms.Some? {
          e.bookmarks := e.bookmarks + [Bookmark(fields[0], ms.value, ms.value)];
        }
      } else if |fields| == 3 {
        var start, end := ParseInt(fields[1]), ParseInt(fields[2]);
        if start.Some? && end.Some? {
          e.bookmarks := e.bookmarks + [Bookmark(fields[0], start.value, end.value)];
        }
      }
      i := i + 1;
    }
    assert entries[..i] == entries;
    e.SortBookmarks();
  }

  /** The Offset property. */
  method LoadOffset(e: Editor, value: string, oldVer: bool)
    requires Distinct(e.notes) && Distinct(e.timingPoints)
    modifies e`exportOffset, e.notes, e.timingPoints
    ensures PropsOf(e) == WithOffset(old(PropsOf(e)), oldVer, value)
  {
    if oldVer {
      MoveFirstPoint(e, value);
    } else {
      Rebase(e, value);
    }
  }

  /** Offset in the old format: the first timing point's time, when the value reads. */
  method MoveFirstPoint(e: Editor, value: string)
    requires Distinct(e.timingPoints)
    modifies e.timingPoints
    ensures PropsOf(e) == WithOffset(old(PropsOf(e)), true, value)
  {
    var offset := ParseInt(value);
    if |e.timingPoints| > 0 && offset.Some? {
      ghost var ts := Tempos(e.timingPoints);
      var first := e.timingPoints[0];
      first.ms := offset.value;
      forall i | 0 < i < |e.timingPoints| ensures TempoOf(e.timingPoints[i]) == ts[i] {
        assert e.timingPoints[i] != first;
      }
      assert Tempos(e.timingPoints) == ts[0 := ts[0].(ms := offset.value)];
    }
  }

  /** Offset otherwise: every note moves out by the old export offset and in by the new one. */
  method Rebase(e: Editor, value: string)
    requires Distinct(e.notes)
    modifies e`exportOffset, e.notes
    ensures PropsOf(e) == WithOffset(old(PropsOf(e)), false, value)
  {
    ghost var p0 := PropsOf(e);
    var ns := e.notes;
    var offset := ParseInt(value);
    var before := e.exportOffset;
    var after := if offset.Some? then offset.value as real else before;
    ghost var q := p0.(noteMs := Shifted(Shifted(p0.noteMs, Trunc(before)), -Trunc(after)), exportOffset := after);
    assert q == WithOffset(p0, false, value) by {
      assert p0.exportOffset == before;
    }
    e.exportOffset := after;
    ghost var ts := Tempos(e.timingPoints);
    assert ts == q.points;
    ShiftAll(ns, Trunc(before), -Trunc(after));
    assert Tempos(e.timingPoints) == ts;
  }

  /** The two loops of Offset over the notes: out by one amount, in by another. */
  method ShiftAll(ns: seq<Note>, out: int, in': int)
    requires Distinct(ns)
    modifies ns
    ensures Times(ns) == Shifted(Shifted(old(Times(ns)), out), in')
  {
    ghost var ms := Times(ns);
    MoveTimes(ns, out);
    ghost var moved := Times(ns);
    forall i | 0 <= i < |ns| ensures moved[i] == ms[i] + out {
    }
    ShiftedBy(ms, moved, out);
    MoveTimes(ns, in');
    ghost var back := Times(ns);
    forall i | 0 <= i < |ns| ensures back[i] == moved[i] + in' {
    }
    ShiftedBy(moved, back, in');
  }

  lemma ShiftedBy(a: seq<int>, b: seq<int>, d: int)
    requires |a| == |b| && forall i :: 0 <= i < |a| ==> b[i] == a[i] + d
    ensures b == Shifted(a, d)
  {
  }

  /** One line of the property text. */
  method LoadLine(e: Editor, line: string, oldVer: bool) returns (oldVer': bool, ok: bool)
    requires Distinct(e.notes) && Distinct(e.timingPoints)
    modifies e`timingPoints, e`bookmarks, e`exportOffset, e`currentTime, e`beatDivisor, e.notes, e.timingPoints
    ensures LoadedLine(old(PropsOf(e)), oldVer, line) == Loaded(PropsOf(e), oldVer', ok)
    ensures Distinct(e.timingPoints)
    ensures forall i :: 0 <= i < |e.timingPoints| ==> e.timingPoints[i] in old(e.timingPoints) || fresh(e.timingPoints[i])
  {
    oldVer', ok := oldVer, true;
    var split := Split(line, '=');
    var key := split[0];
    if !KnownKey(key) {
      return;
    }
    if |split| < 2 {
      ok := false;
      return;
    }
    var value := split[1];
    if key == "BPM" {
      var oldFormat := LoadPoints(e, Split(value, ','));
      oldVer' := oldVer || oldFormat;
    } else if key == "Bookmarks" {
      LoadBookmarks(e, Split(value, ','));
    } else if key == "Offset" {
      LoadOffset(e, value, oldVer);
    } else if key == "Time" {
      var time := ParseInt(value);
      if time.Some? {
        e.currentTime := time.value as real;
      }
    } else {
      var divisor := ParseDecimal(value);
      if divisor.Some? {
        e.beatDivisor := divisor.value - 1.0;
      }
    }
  }

  /**
   * LoadLegacyProperties: the lines of the text in order. ok is false when
   * a line threw; the lines before it keep their effect.
   */
  method LoadLegacyProperties(e: Editor, text: string) returns (ok: bool)
    requires Distinct(e.notes) && Distinct(e.timingPoints)
    modifies e`timingPoints, e`bookmarks, e`exportOffset, e`currentTime, e`beatDivisor, e.notes, e.timingPoints
    ensures PropsOf(e) == LoadedLines(old(PropsOf(e)), Split(text, '\n')).props
    ensures ok == LoadedLines(old(PropsOf(e)), Split(text, '\n')).ok
  {
    ghost var p0 := PropsOf(e);
    var lines := Split(text, '\n');
    var oldVer := false;
    ok := true;
    var i := 0;
    while i < |lines|
      invariant 0 <= i <= |lines|
      invariant LoadedLines(p0, lines[..i]) == Loaded(PropsOf(e), oldVer, true)
      invariant Distinct(e.timingPoints)
      invariant forall i :: 0 <= i < |e.timingPoints| ==> e.timingPoints[i] in old(e.timingPoints) || fresh(e.timingPoints[i])
    {
      assert lines[..i + 1][..i] == lines[..i];
      oldVer, ok := LoadLine(e, lines[i], oldVer);
      if !ok {
        assert LoadedLines(p0, lines[..i + 1]) == Loaded(PropsOf(e), oldVer, false);
        FailedLoadStops(p0, lines, i + 1);
        return;
      }
      i := i + 1;
    }
    assert lines[..i] == lines;
  }

  lemma {:induction false} FailedLoadStops(p: Props, lines: seq<string>, i: int)
    requires 0 <= i <= |lines| && !LoadedLines(p, lines[..i]).ok
    ensures LoadedLines(p, lines) == LoadedLines(p, lines[..i])
    decreases |lines| - i
  {
    if i < |lines| {
      assert lines[..i + 1][..i] == lines[..i];
      FailedLoadStops(p, lines, i + 1);
    } else {
      assert lines[..i] == lines;
    }
  }

  // ---------------------------------------------------------------------
  // Properties

  /** A bare BPM entry (no '|') is a point at time 0. */
  lemma OldFormatStartsAtZero(entry: string, bpm: real)
    requires '|' !in entry && ParseDecimal(entry) == Some(bpm)
    ensures OldFormat(entry)
    ensures PointEntry(entry) == Some(Tempo(bpm, 0))
  {
    SplitNone(entry, '|');
    IntRoundTrip(0);
    assert IntToString(0) == "0";
  }

  /** A BPM line with an entry in the format from before timing points had times. */
  predicate OldBpmLine(line: string)
  {
    var split := Split(line, '=');
    split[0] == "BPM" && |split| >= 2 && AnyOldFormat(Split(split[1], ','))
  }

  /**
   * After lines that all load, the old-format flag is set exactly when one
   * of them was a BPM line with an entry without '|': an Offset line reads
   * the flag as the lines before it left it.
   */
  lemma {:induction false} OldVersionFromEarlierBpm(p: Props, lines: seq<string>)
    ensures LoadedLines(p, lines).ok ==>
      (LoadedLines(p, lines).oldVer <==> exists j :: 0 <= j < |lines| && OldBpmLine(lines[j]))
  {
    if lines != [] {
      var front, last := lines[..|lines| - 1], lines[|lines| - 1];
      OldVersionFromEarlierBpm(p, front);
      var r := LoadedLines(p, front);
      if r.ok && LoadedLines(p, lines).ok {
        assert LoadedLines(p, lines).oldVer == (r.oldVer || OldBpmLine(last));
        if r.oldVer {
          var j :| 0 <= j < |front| && OldBpmLine(front[j]);
          assert lines[j] == front[j];
        }
        if LoadedLines(p, lines).oldVer && !OldBpmLine(last) {
          var j :| 0 <= j < |front| && OldBpmLine(front[j]);
          assert lines[j] == front[j];
        }
        if exists j :: 0 <= j < |lines| && OldBpmLine(lines[j]) {
          var j :| 0 <= j < |lines| && OldBpmLine(lines[j]);
          if j < |front| {
            assert front[j] == lines[j];
          }
        }
      }
    }
  }

  /**
   * Outside the old format an Offset line keeps every note's time in the
   * file (its time plus the truncated export offset); a value that does not
   * parse changes nothing, one that does becomes the export offset.
   */
  lemma OffsetKeepsFileTimes(p: Props, value: string)
    ensures var q := WithOffset(p, false, value);
      |q.noteMs| == |p.noteMs| &&
      (forall i :: 0 <= i < |p.noteMs| ==> q.noteMs[i] + Trunc(q.exportOffset) == p.noteMs[i] + Trunc(p.exportOffset)) &&
      (ParseInt(value).None? ==> q == p) &&
      (ParseInt(value).Some? ==> q.exportOffset == ParseInt(value).value as real)
  {
    var q := WithOffset(p, false, value);
    if ParseInt(value).Some? {
      var v := ParseInt(value).value;
      assert Trunc(v as real) == v;
    } else {
      assert q.noteMs == p.noteMs;
    }
  }

  /** In the old format an Offset line moves the first timing point and leaves the notes and the export offset. */
  lemma OldOffsetMovesFirstPoint(p: Props, value: string, v: int)
    requires |p.points| > 0 && ParseInt(value) == Some(v)
    ensures var q := WithOffset(p, true, value);
      q.noteMs == p.noteMs && q.exportOffset == p.exportOffset &&
      |q.points| == |p.points| && q.points[0] == Tempo(p.points[0].bpm, v) && q.points[1..] == p.points[1..]
  {
  }

  /** "Divisor=d" stores d - 1 as the beat divisor. */
  lemma DivisorStoredMinusOne(p: Props, oldVer: bool, value: string, d: real)
    requires '=' !in value && ParseDecimal(value) == Some(d)
    ensures LoadedLine(p, oldVer, "Divisor=" + value) == Loaded(p.(beatDivisor := d - 1.0), oldVer, true)
  {
    SplitTwo("Divisor", value, '=');
    assert "Divisor" + ['='] + value == "Divisor=" + value;
  }

  /** A known key written without '=' throws: nothing more of the text is loaded. */
  lemma KeyWithoutValueThrows(p: Props, oldVer: bool, key: string)
    requires KnownKey(key)
    ensures !LoadedLine(p, oldVer, key).ok
  {
    SplitNone(key, '=');
  }
}
