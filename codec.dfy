// The shareable map text (Map.Save and Map.Parse): an id followed by one
// ",x|0|d" record per note, where x is the lane rounded to two places and
// d is the second difference of note times, with the previous time and the
// previous difference both starting at 0. Parse undoes the second
// difference with two running sums. In "ss" mode (the text of another
// game) field 2 is an absolute time and the lane is field 0 plus field 1.

module MapCodec {
  import opened Common
  import opened Text
  import opened Notes

  /**
   * The clone Save writes for one note: with copy, the lane is clamped to
   * the bounds and the time to [0, max] (then truncated); with applyOffset,
   * the export offset is added to the time.
   */
  function Prepared(v: NoteValue, copy: bool, applyOffset: bool, offset: int, maxMs: real): (r: NoteValue)
    ensures copy ==> LaneLow <= r.x <= LaneHigh
    ensures copy && maxMs >= 0.0 ==> 0 <= r.ms - (if applyOffset then offset else 0) && (r.ms - (if applyOffset then offset else 0)) as real <= maxMs
    ensures !copy ==> r.x == v.x && r.ms == v.ms + (if applyOffset then offset else 0)
  {
    var base := if copy then NoteValue(ClampReal(v.x, LaneLow, LaneHigh), Trunc(ClampReal(v.ms as real, 0.0, maxMs))) else v;
    if applyOffset then base.(ms := base.ms + offset) else base
  }

  function PreparedAll(vs: seq<NoteValue>, copy: bool, applyOffset: bool, offset: int, maxMs: real): (r: seq<NoteValue>)
    ensures |r| == |vs|
    ensures forall i :: 0 <= i < |vs| ==> r[i] == Prepared(vs[i], copy, applyOffset, offset, maxMs)
  {
    seq(|vs|, i requires 0 <= i < |vs| => Prepared(vs[i], copy, applyOffset, offset, maxMs))
  }

  /** What a record stores of a note: the lane as whole hundredths (rounded to two places) and the time. */
  datatype Stored = Stored(hundredths: int, ms: int)

  function StoredOf(v: NoteValue): Stored
  {
    Stored(Hundredths(v.x), v.ms)
  }

  function StoredAll(vs: seq<NoteValue>): (r: seq<Stored>)
    ensures |r| == |vs|
    ensures forall i :: 0 <= i < |vs| ==> r[i] == StoredOf(vs[i])
  {
    seq(|vs|, i requires 0 <= i < |vs| => StoredOf(vs[i]))
  }

  /** One record: the lane in hundredths and the second difference of times. */
  datatype Record = Record(hundredths: int, delta: int)

  /** The records of ws, given the previous time and the previous difference. */
  function Records(ws: seq<Stored>, prevMs: int, prevDiff: int): (r: seq<Record>)
    ensures |r| == |ws|
  {
    if ws == [] then []
    else
      var diff := ws[0].ms - prevMs;
      [Record(ws[0].hundredths, diff - prevDiff)] + Records(ws[1..], ws[0].ms, diff)
  }

  /** The text of each record (without its comma), written by fmt. */
  function Texts(rs: seq<Record>, fmt: (int, int) -> string): (ts: seq<string>)
    ensures |ts| == |rs|
    ensures forall i :: 0 <= i < |rs| ==> ts[i] == fmt(rs[i].hundredths, rs[i].delta)
  {
    seq(|rs|, i requires 0 <= i < |rs| => fmt(rs[i].hundredths, rs[i].delta))
  }

  /** Each piece preceded by the separator. */
  function Prefixed(rs: seq<string>, c: char): string
  {
    if rs == [] then "" else [c] + rs[0] + Prefixed(rs[1..], c)
  }

  /** The body of the shareable text of ws: each record after a comma. */
  function Body(ws: seq<Stored>, prevMs: int, prevDiff: int): string
  {
    Prefixed(Texts(Records(ws, prevMs, prevDiff), FieldsText), ',')
  }

  /** The shareable text of a list of (already prepared) note values. */
  function SaveText(id: string, vs: seq<NoteValue>): string
  {
    id + Body(StoredAll(vs), 0, 0)
  }

  /**
   * Map.Save: clones each note (clamped when copy), shifts it by the
   * truncated export offset when applyOffset, and writes its record. The
   * input notes are not changed: the method has no modifies clause.
   */
  method Save(id: string, notes: seq<Note>, copy: bool, applyOffset: bool, exportOffset: real, maxMs: real)
    returns (text: string)
    ensures text == SaveText(id, PreparedAll(Values(notes), copy, applyOffset, Trunc(exportOffset), maxMs))
  {
    var staticOffset := Trunc(exportOffset);
    ghost var vs := Values(notes);
    ghost var ws := StoredAll(PreparedAll(vs, copy, applyOffset, staticOffset, maxMs));
    text := id;
    var prevDiff, prevMs := 0, 0;
    var i := 0;
    assert ws[0..] == ws;
    while i < |notes|
      invariant 0 <= i <= |notes|
      invariant text + Body(ws[i..], prevMs, prevDiff) == id + Body(ws, 0, 0)
    {
      text, prevMs, prevDiff := WriteRecord(id, text, vs, ws, i, notes[i], copy, applyOffset, staticOffset, maxMs, prevMs, prevDiff);
      i := i + 1;
    }
    assert ws[i..] == [];
    assert Body([], prevMs, prevDiff) == "";
  }

  /**
   * One turn of Save's loop: clone note i, write its record after the text
   * so far, and move on to its time and time difference.
   */
  method WriteRecord(ghost id: string, text: string, ghost vs: seq<NoteValue>, ghost ws: seq<Stored>, i: int, note: Note,
                     copy: bool, applyOffset: bool, staticOffset: int, maxMs: real, prevMs: int, prevDiff: int)
    returns (text': string, ms: int, diff: int)
    requires 0 <= i < |vs| && ValueOf(note) == vs[i]
    requires ws == StoredAll(PreparedAll(vs, copy, applyOffset, staticOffset, maxMs))
    requires text + Body(ws[i..], prevMs, prevDiff) == id + Body(ws, 0, 0)
    ensures text' + Body(ws[i + 1..], ms, diff) == id + Body(ws, 0, 0)
  {
    var clone := PrepareClone(note, copy, applyOffset, staticOffset, maxMs);
    diff := clone.ms - prevMs;
    var offset := diff - prevDiff;
    var record := FieldsText(Hundredths(clone.x), offset);
    StoredAt(vs, i, ValueOf(clone), copy, applyOffset, staticOffset, maxMs);
    SaveStep(id, text, record, ws, i, prevMs, prevDiff, clone.ms, diff);
    ms := clone.ms;
    text' := text + "," + record;
  }

  /** The record fields of note i are the stored form of its prepared clone. */
  lemma StoredAt(vs: seq<NoteValue>, i: int, c: NoteValue, copy: bool, applyOffset: bool, offset: int, maxMs: real)
    requires 0 <= i < |vs| && c == Prepared(vs[i], copy, applyOffset, offset, maxMs)
    ensures StoredAll(PreparedAll(vs, copy, applyOffset, offset, maxMs))[i] == Stored(Hundredths(c.x), c.ms)
  {
  }

  /** One turn of Save's loop keeps the text written so far plus the records still to write equal to the whole text. */
  lemma SaveStep(id: string, text: string, record: string, ws: seq<Stored>, i: int, prevMs: int, prevDiff: int, ms: int, diff: int)
    requires 0 <= i < |ws| && ms == ws[i].ms && diff == ms - prevMs
    requires record == FieldsText(ws[i].hundredths, diff - prevDiff)
    requires text + Body(ws[i..], prevMs, prevDiff) == id + Body(ws, 0, 0)
    ensures (text + "," + record) + Body(ws[i + 1..], ms, diff) == id + Body(ws, 0, 0)
  {
    BodyStep(text, record, ws, i, prevMs, prevDiff, ms, diff, FieldsText);
  }

  /** The clone of one note that Save writes. */
  method PrepareClone(note: Note, copy: bool, applyOffset: bool, offset: int, maxMs: real) returns (clone: Note)
    ensures fresh(clone)
    ensures ValueOf(clone) == Prepared(ValueOf(note), copy, applyOffset, offset, maxMs)
  {
    if copy {
      clone := new Note(ClampReal(note.x, LaneLow, LaneHigh), Trunc(ClampReal(note.ms as real, 0.0, maxMs)));
    } else {
      clone := note.Clone();
    }
    if applyOffset {
      clone.ms := clone.ms + offset;
    }
  }

  /**
   * Writing record i after text leaves the records after it still to write,
   * with ms and diff the time and the difference Save moves on to.
   */
  lemma BodyStep(text: string, record: string, ws: seq<Stored>, i: int, prevMs: int, prevDiff: int, ms: int, diff: int, fmt: (int, int) -> string)
    requires 0 <= i < |ws|
    requires ms == ws[i].ms && diff == ms - prevMs
    requires record == fmt(ws[i].hundredths, diff - prevDiff)
    ensures text + "," + record + Prefixed(Texts(Records(ws[i + 1..], ms, diff), fmt), ',')
         == text + Prefixed(Texts(Records(ws[i..], prevMs, prevDiff), fmt), ',')
  {
    var rs := Records(ws[i..], prevMs, prevDiff);
    var ts := Texts(rs, fmt);
    assert ws[i..][0] == ws[i];
    assert ws[i..][1..] == ws[i + 1..];
    assert rs[1..] == Records(ws[i + 1..], ms, diff);
    assert ts[1..] == Texts(rs[1..], fmt);
    var rest := Prefixed(Texts(Records(ws[i + 1..], ms, diff), fmt), ',');
    assert Prefixed(ts, ',') == [','] + record + rest;
    assert text + "," + record + rest == text + ([','] + record + rest);
  }

  /** Parse's result: the decoded notes, and false where Parse throws part way. */
  datatype Decoded = Decoded(values: seq<NoteValue>, ok: bool)

  /**
   * One non-blank field outside ss mode: the note it gives and the new
   * running sums. The first sum is the running first difference, the second
   * the running time; the field's time is the second difference.
   */
  function DecodeTimed(field: string, prev: int, total: int): (r: Option<(NoteValue, int, int)>)
    ensures r.Some? ==> r.value.0.ms == r.value.2 == total + r.value.1
  {
    match ParseNoteText(field)
    case None => None
    case Some(v) =>
      var p := prev + v.ms;
      Some((NoteValue(v.x, total + p), p, total + p))
  }

  /**
   * One non-blank field in ss mode: the time is read as is, and the lane is
   * moved by '|'-field 1, clamped to the grid unless alt is set. The
   * running sums do not change.
   */
  function DecodeShifted(field: string, alt: bool, prev: int, total: int): (r: Option<(NoteValue, int, int)>)
    ensures r.Some? && !alt ==> LaneLow <= r.value.0.x <= LaneHigh
    ensures r.Some? ==> r.value.1 == prev && r.value.2 == total
  {
    match ParseNoteText(field)
    case None => None
    case Some(v) =>
      match ParseDecimal(Split(field, '|')[1])
      case None => None
      case Some(dx) =>
        var x := if alt then v.x + dx else ClampReal(v.x + dx, LaneLow, LaneHigh);
        Some((NoteValue(x, v.ms), prev, total))
  }

  /** How one non-blank field is read, given the two running sums. */
  type Step = (string, int, int) -> Option<(NoteValue, int, int)>

  /** The fields after the id: blank ones are skipped, the first bad one stops decoding. */
  function DecodeWith(fields: seq<string>, step: Step, prev: int, total: int): Decoded
  {
    if fields == [] then Decoded([], true)
    else if IsBlank(fields[0]) then DecodeWith(fields[1..], step, prev, total)
    else
      match step(fields[0], prev, total)
      case None => Decoded([], false)
      case Some((v, p, t)) =>
        var rest := DecodeWith(fields[1..], step, p, t);
        Decoded([v] + rest.values, rest.ok)
  }

  /** The loop body of Parse: the ss flag picks how every field is read. */
  function RecordStepOf(ss: bool, alt: bool): Step
  {
    if ss then (f, p, t) => DecodeShifted(f, alt, p, t)
    else (f, p, t) => DecodeTimed(f, p, t)
  }

  function DecodeFields(fields: seq<string>, ss: bool, alt: bool, prev: int, total: int): Decoded
  {
    DecodeWith(fields, RecordStepOf(ss, alt), prev, total)
  }

  /** What Parse returns (the id) and what it appends. */
  function ParseText(data: string, ss: bool, alt: bool): (string, Decoded)
  {
    var split := Split(data, ',');
    (split[0], DecodeFields(split[1..], ss, alt, 0, 0))
  }

  /**
   * Map.Parse: returns the first comma field as the id and appends a fresh
   * note for each decoded record to the caller's list. When a field does not
   * parse, ok is false and the notes appended before it stay appended.
   */
  method Parse(data: string, notes: seq<Note>, ss: bool, alt: bool) returns (id: string, result: seq<Note>, ok: bool)
    ensures id == ParseText(data, ss, alt).0
    ensures |result| >= |notes| && result[..|notes|] == notes
    ensures forall k :: |notes| <= k < |result| ==> fresh(result[k])
    ensures Values(result[|notes|..]) == ParseText(data, ss, alt).1.values
    ensures ok == ParseText(data, ss, alt).1.ok
  {
    var split := Split(data, ',');
    id := split[0];
    result, ok := AppendDecoded(split[1..], RecordStepOf(ss, alt), notes);
  }

  /** Parse's loop over the fields after the id, each non-blank one read by step. */
  method AppendDecoded(fields: seq<string>, step: Step, notes: seq<Note>) returns (result: seq<Note>, ok: bool)
    ensures |result| >= |notes| && result[..|notes|] == notes
    ensures forall k :: |notes| <= k < |result| ==> fresh(result[k])
    ensures Values(result[|notes|..]) == DecodeWith(fields, step, 0, 0).values
    ensures ok == DecodeWith(fields, step, 0, 0).ok
  {
    ghost var spec := DecodeWith(fields, step, 0, 0);
    var total, prev := 0, 0;
    result := notes;
    ok := true;
    var i := 0;
    while i < |fields|
      invariant 0 <= i <= |fields|
      invariant |result| >= |notes| && result[..|notes|] == notes
      invariant forall k :: |notes| <= k < |result| ==> fresh(result[k])
      invariant spec.values == Values(result[|notes|..]) + DecodeWith(fields[i..], step, prev, total).values
      invariant spec.ok == DecodeWith(fields[i..], step, prev, total).ok
    {
      assert fields[i..] == [fields[i]] + fields[i + 1..];
      var stop;
      result, prev, total, stop := DecodeField(fields[i], step, notes, result, prev, total, fields[i + 1..], spec);
      if stop {
        ok := false;
        break;
      }
      i := i + 1;
    }
    if ok {
      assert fields[i..] == [];
    }
  }

  /**
   * One pass of Parse's loop: a blank field is skipped, a field step cannot
   * read stops the loop, any other appends a fresh note and moves the sums.
   */
  method DecodeField(field: string, step: Step, notes: seq<Note>, result: seq<Note>, prev: int, total: int,
                     ghost rest: seq<string>, ghost spec: Decoded)
    returns (result': seq<Note>, prev': int, total': int, stop: bool)
    requires |result| >= |notes| && result[..|notes|] == notes
    requires spec.values == Values(result[|notes|..]) + DecodeWith([field] + rest, step, prev, total).values
    requires spec.ok == DecodeWith([field] + rest, step, prev, total).ok
    ensures |result'| >= |result| && result'[..|result|] == result
    ensures forall k :: |result| <= k < |result'| ==> fresh(result'[k])
    ensures stop ==> result' == result && spec.values == Values(result[|notes|..]) && !spec.ok
    ensures !stop ==> spec.values == Values(result'[|notes|..]) + DecodeWith(rest, step, prev', total').values
    ensures !stop ==> spec.ok == DecodeWith(rest, step, prev', total').ok
  {
    ghost var fs := [field] + rest;
    assert fs[0] == field && fs[1..] == rest;
    result', prev', total', stop := result, prev, total, false;
    if IsBlank(field) {
      DecodeWithBlank(fs, step, prev, total);
      return;
    }
    var r := step(field, prev, total);
    if r.None? {
      DecodeWithNone(fs, step, prev, total);
      stop := true;
      return;
    }
    var (v, p, t) := r.value;
    DecodeWithSome(fs, step, prev, total, v, p, t);
    var n := new Note(v.x, v.ms);
    ValuesAppend(result[|notes|..], n);
    assert (result + [n])[|notes|..] == result[|notes|..] + [n];
    result', prev', total' := result + [n], p, t;
  }

  lemma DecodeWithBlank(fs: seq<string>, step: Step, prev: int, total: int)
    requires fs != [] && IsBlank(fs[0])
    ensures DecodeWith(fs, step, prev, total) == DecodeWith(fs[1..], step, prev, total)
  {
  }

  /**
   * A field of only no-break spaces is blank to IsNullOrWhiteSpace, so the
   * loop skips it as it skips an empty field and goes on with the sums unchanged.
   */
  lemma NoBreakSpaceFieldSkipped(fs: seq<string>, ss: bool, alt: bool, prev: int, total: int)
    ensures DecodeFields(["\U{00A0}\U{00A0}"] + fs, ss, alt, prev, total) == DecodeFields(fs, ss, alt, prev, total)
  {
    var all := ["\U{00A0}\U{00A0}"] + fs;
    assert all[1..] == fs;
    DecodeWithBlank(all, RecordStepOf(ss, alt), prev, total);
  }

  lemma DecodeWithNone(fs: seq<string>, step: Step, prev: int, total: int)
    requires fs != [] && !IsBlank(fs[0]) && step(fs[0], prev, total).None?
    ensures DecodeWith(fs, step, prev, total) == Decoded([], false)
  {
  }

  lemma DecodeWithSome(fs: seq<string>, step: Step, prev: int, total: int, v: NoteValue, p: int, t: int)
    requires fs != [] && !IsBlank(fs[0]) && step(fs[0], prev, total) == Some((v, p, t))
    ensures DecodeWith(fs, step, prev, total)
         == Decoded([v] + DecodeWith(fs[1..], step, p, t).values, DecodeWith(fs[1..], step, p, t).ok)
  {
  }

  lemma ValuesAppend(ns: seq<Note>, n: Note)
    ensures Values(ns + [n]) == Values(ns) + [ValueOf(n)]
  {
  }

  lemma {:induction false} PrefixedJoin(id: string, rs: seq<string>, c: char)
    ensures id + Prefixed(rs, c) == Join([id] + rs, c)
    decreases rs
  {
    if rs != [] {
      PrefixedJoin(rs[0], rs[1..], c);
      assert ([id] + rs)[1..] == [rs[0]] + rs[1..];
    }
  }

  /** A stored record as it reads back: the lane as a decimal of hundredths. */
  function ReadBack(w: Stored): NoteValue
  {
    NoteValue(w.hundredths as real / 100.0, w.ms)
  }

  function ReadBackAll(ws: seq<Stored>): (r: seq<NoteValue>)
    ensures |r| == |ws|
    ensures forall i :: 0 <= i < |ws| ==> r[i] == ReadBack(ws[i])
  {
    seq(|ws|, i requires 0 <= i < |ws| => ReadBack(ws[i]))
  }

  /** The values with every lane rounded to two places. */
  function RoundedLanes(vs: seq<NoteValue>): (r: seq<NoteValue>)
    ensures |r| == |vs|
    ensures forall i :: 0 <= i < |vs| ==> r[i] == NoteValue(Round2(vs[i].x), vs[i].ms)
  {
    seq(|vs|, i requires 0 <= i < |vs| => NoteValue(Round2(vs[i].x), vs[i].ms))
  }

  /** fmt never writes a blank text. */
  ghost predicate NeverBlank(fmt: (int, int) -> string)
  {
    forall h, d :: !IsBlank(fmt(h, d))
  }

  /**
   * step reads back the text fmt writes for lane h and second difference d:
   * given the running sums p and t, it gives back the lane in hundredths and
   * adds d to both sums.
   */
  ghost predicate ReadsBackAt(fmt: (int, int) -> string, step: Step, h: int, d: int, p: int, t: int)
  {
    step(fmt(h, d), p, t) == Some((NoteValue(h as real / 100.0, t + (p + d)), p + d, t + (p + d)))
  }

  /** step reads back every text fmt writes. */
  ghost predicate ReadsBack(fmt: (int, int) -> string, step: Step)
  {
    forall h, d, p, t :: ReadsBackAt(fmt, step, h, d, p, t)
  }

  lemma RecordsNotBlank(fmt: (int, int) -> string)
    requires fmt == FieldsText
    ensures NeverBlank(fmt)
  {
    forall h, d ensures !IsBlank(fmt(h, d)) {
      FieldsTextChars(h, d);
    }
  }

  /** Outside ss mode, the record step reads back what FieldsText writes. */
  lemma RecordStepReads(fmt: (int, int) -> string, step: Step, alt: bool)
    requires fmt == FieldsText && step == RecordStepOf(false, alt)
    ensures ReadsBack(fmt, step)
  {
    forall h, d, p, t ensures ReadsBackAt(fmt, step, h, d, p, t) {
      RecordStepAt(fmt, step, alt, h, d, p, t);
    }
  }

  lemma RecordStepAt(fmt: (int, int) -> string, step: Step, alt: bool, h: int, d: int, p: int, t: int)
    requires fmt == FieldsText && step == RecordStepOf(false, alt)
    ensures ReadsBackAt(fmt, step, h, d, p, t)
  {
    FieldsTextSteps(h, d, p, t, alt);
  }

  lemma FieldsTextSteps(h: int, d: int, p: int, t: int, alt: bool)
    ensures RecordStepOf(false, alt)(FieldsText(h, d), p, t)
         == Some((NoteValue(h as real / 100.0, t + (p + d)), p + d, t + (p + d)))
  {
    var f, x := FieldsText(h, d), h as real / 100.0;
    assert ParseNoteText(f) == Some(NoteValue(x, d)) by {
      FieldsTextRoundTrip(h, d);
    }
    DecodeRecordTimed(f, x, d, alt, p, t);
  }

  /** Outside ss mode, a field that parses as (x, ms) gives lane x and moves both sums on by ms. */
  lemma DecodeRecordTimed(f: string, x: real, ms: int, alt: bool, p: int, t: int)
    requires ParseNoteText(f) == Some(NoteValue(x, ms))
    ensures RecordStepOf(false, alt)(f, p, t) == Some((NoteValue(x, t + (p + ms)), p + ms, t + (p + ms)))
  {
  }

  /**
   * With prev the previous difference and total the previous time, the
   * records of ws, written by any fmt that step reads back, decode to ws.
   */
  lemma {:induction false} RecordsDecode(ws: seq<Stored>, prevMs: int, prevDiff: int, fmt: (int, int) -> string, step: Step)
    requires NeverBlank(fmt) && ReadsBack(fmt, step)
    ensures DecodeWith(Texts(Records(ws, prevMs, prevDiff), fmt), step, prevDiff, prevMs) == Decoded(ReadBackAll(ws), true)
  {
    if ws != [] {
      var diff := ws[0].ms - prevMs;
      var fs := Texts(Records(ws, prevMs, prevDiff), fmt);
      RecordTexts(ws, prevMs, prevDiff, fmt);
      RecordsDecode(ws[1..], ws[0].ms, diff, fmt, step);
      assert ReadsBackAt(fmt, step, ws[0].hundredths, diff - prevDiff, prevDiff, prevMs);
      DecodeWithSome(fs, step, prevDiff, prevMs, ReadBack(ws[0]), diff, ws[0].ms);
      assert ReadBackAll(ws) == [ReadBack(ws[0])] + ReadBackAll(ws[1..]);
    }
  }

  /** The first record's text and the texts of the records after it. */
  lemma RecordTexts(ws: seq<Stored>, prevMs: int, prevDiff: int, fmt: (int, int) -> string)
    requires ws != []
    ensures var fs := Texts(Records(ws, prevMs, prevDiff), fmt);
      var diff := ws[0].ms - prevMs;
      && fs != []
      && fs[0] == fmt(ws[0].hundredths, diff - prevDiff)
      && fs[1..] == Texts(Records(ws[1..], ws[0].ms, diff), fmt)
  {
    var rs := Records(ws, prevMs, prevDiff);
    assert rs[1..] == Records(ws[1..], ws[0].ms, ws[0].ms - prevMs);
  }

  /** The records Save writes decode, outside ss mode, to the stored notes read back. */
  lemma BodyDecodes(ws: seq<Stored>, alt: bool)
    ensures DecodeFields(Texts(Records(ws, 0, 0), FieldsText), false, alt, 0, 0) == Decoded(ReadBackAll(ws), true)
  {
    RecordsNotBlank(FieldsText);
    RecordStepReads(FieldsText, RecordStepOf(false, alt), alt);
    RecordsDecode(ws, 0, 0, FieldsText, RecordStepOf(false, alt));
  }

  /** fmt never writes a comma. */
  ghost predicate CommaFree(fmt: (int, int) -> string)
  {
    forall h, d :: ',' !in fmt(h, d)
  }

  lemma RecordsCommaFree(fmt: (int, int) -> string)
    requires fmt == FieldsText
    ensures CommaFree(fmt)
  {
    forall h, d ensures ',' !in fmt(h, d) {
      FieldsTextChars(h, d);
    }
  }

  lemma TextsCommaFree(rs: seq<Record>, fmt: (int, int) -> string)
    requires CommaFree(fmt)
    ensures forall k :: 0 <= k < |rs| ==> ',' !in Texts(rs, fmt)[k]
  {
  }

  /** Splitting the id and the comma-led pieces on ',' gives them back. */
  lemma SplitPrefixed(id: string, ts: seq<string>)
    requires ',' !in id
    requires forall k :: 0 <= k < |ts| ==> ',' !in ts[k]
    ensures Split(id + Prefixed(ts, ','), ',') == [id] + ts
  {
    PrefixedJoin(id, ts, ',');
    SplitJoin([id] + ts, ',');
  }

  /**
   * Decoding inverts encoding: Parse of the text Save writes gives back the
   * id and every note, in the same order, with the same time and the lane
   * rounded to two places.
   */
  lemma ParseSaveRoundTrip(id: string, vs: seq<NoteValue>, alt: bool)
    requires ',' !in id
    ensures ParseText(SaveText(id, vs), false, alt) == (id, Decoded(RoundedLanes(vs), true))
  {
    var ws := StoredAll(vs);
    var rs := Records(ws, 0, 0);
    var ts := Texts(rs, FieldsText);
    RecordsCommaFree(FieldsText);
    TextsCommaFree(rs, FieldsText);
    SplitPrefixed(id, ts);
    assert ([id] + ts)[1..] == ts;
    BodyDecodes(ws, alt);
    forall i | 0 <= i < |vs| ensures ReadBackAll(ws)[i] == RoundedLanes(vs)[i] {
      assert ws[i] == StoredOf(vs[i]);
    }
    assert ReadBackAll(ws) == RoundedLanes(vs);
  }

  /**
   * Saved with the export offset applied (and without copy), a list of
   * notes reads back with every time shifted by the offset, in the same
   * order, lanes rounded to two places.
   */
  lemma SavedNotesReadBackShifted(id: string, vs: seq<NoteValue>, offset: int, maxMs: real, alt: bool)
    requires ',' !in id
    ensures var r := ParseText(SaveText(id, PreparedAll(vs, false, true, offset, maxMs)), false, alt);
            r.0 == id && r.1.ok && |r.1.values| == |vs|
            && forall i :: 0 <= i < |vs| ==> r.1.values[i] == NoteValue(Round2(vs[i].x), vs[i].ms + offset)
  {
    ParseSaveRoundTrip(id, PreparedAll(vs, false, true, offset, maxMs), alt);
  }
}
