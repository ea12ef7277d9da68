// A note on the editor's grid: its lane X (0 to 4, fractional while it is
// being dragged or scaled), its time in milliseconds, and the two fields
// the editor uses while dragging and selecting. Notes are shared by
// reference between a map, the editor's lists, the selection and the undo
// history, and are changed in place by the drag and edit commands.
//
// The cache text of one note is ",{X rounded to 2 places}|0|{Ms}"; the
// rounded lane is written as a number of hundredths.

module Notes {
  import opened Common
  import opened Text

  class Note {
    var x: real
    var ms: int
    var dragStartMs: int
    var selected: bool

    /** new Note(x, ms): the other fields keep their defaults. */
    constructor (x: real, ms: int)
      ensures this.x == x && this.ms == ms
      ensures dragStartMs == 0 && !selected
    {
      this.x := x;
      this.ms := ms;
      dragStartMs := 0;
      selected := false;
    }

    /** A new note with the same lane and time. */
    method Clone() returns (c: Note)
      ensures fresh(c)
      ensures c.x == x && c.ms == ms
      ensures c.dragStartMs == 0 && !c.selected
    {
      c := new Note(x, ms);
    }
  }

  /** What a note says about the map: lane and time. */
  datatype NoteValue = NoteValue(x: real, ms: int)

  function ValueOf(n: Note): NoteValue
    reads n
  {
    NoteValue(n.x, n.ms)
  }

  function Values(ns: seq<Note>): (vs: seq<NoteValue>)
    reads ns
    ensures |vs| == |ns|
    ensures forall i :: 0 <= i < |ns| ==> vs[i] == ValueOf(ns[i])
  {
    seq(|ns|, i requires 0 <= i < |ns| reads ns => ValueOf(ns[i]))
  }

  /** Each note paired with the time the editor sorts it by. */
  function Keyed(ns: seq<Note>): (ks: seq<(int, Note)>)
    reads ns`ms
    ensures |ks| == |ns|
    ensures forall i :: 0 <= i < |ns| ==> ks[i] == (ns[i].ms, ns[i])
  {
    if ns == [] then [] else [(ns[0].ms, ns[0])] + Keyed(ns[1..])
  }

  /** Math.Round(x, 2) as a whole number of hundredths. */
  function Hundredths(x: real): int
  {
    RoundHalfEven(x * 100.0)
  }

  /** Math.Round(x, 2). */
  function Round2(x: real): (r: real)
    ensures AbsReal(r - x) <= 0.005
  {
    var h := Hundredths(x);
    assert AbsReal(x * 100.0 - h as real) <= 0.5;
    h as real / 100.0
  }

  /** The lane bounds (MainWindow.Bounds). */
  const LaneLow: real := 0.0
  const LaneHigh: real := 4.0

  /**
   * "{h hundredths as a decimal}|0|{n}": the body of a note's text and of a
   * map record, h being the lane rounded to two places.
   */
  function FieldsText(h: int, n: int): string
  {
    FormatHundredths(h) + "|0|" + IntToString(n)
  }

  /** Note.ToString: a leading comma, the rounded lane, a literal 0 and the time. */
  function NoteText(v: NoteValue): string
  {
    "," + FieldsText(Hundredths(v.x), v.ms)
  }

  /**
   * The parsing constructor Note(string): lane from '|'-field 0, time from
   * '|'-field 2; field 1 is not read. None stands for the exception thrown
   * when a field is missing or does not parse.
   */
  function ParseNoteText(data: string): (r: Option<NoteValue>)
    ensures r.Some? ==> |Split(data, '|')| >= 3
    ensures r.Some? ==> ParseDecimal(Split(data, '|')[0]) == Some(r.value.x)
    ensures r.Some? ==> ParseInt(Split(data, '|')[2]) == Some(r.value.ms)
  {
    var split := Split(data, '|');
    if |split| < 3 then None
    else
      match ParseDecimal(split[0])
      case None => None
      case Some(x) =>
        match ParseInt(split[2])
        case None => None
        case Some(ms) => Some(NoteValue(x, ms))
  }

  /** Note(string) as a method: a fresh note, or None where the constructor throws. */
  method FromText(data: string) returns (r: Option<Note>)
    ensures r.None? <==> ParseNoteText(data).None?
    ensures r.Some? ==> fresh(r.value) && ValueOf(r.value) == ParseNoteText(data).value
    ensures r.Some? ==> r.value.dragStartMs == 0 && !r.value.selected
  {
    match ParseNoteText(data)
    case None => r := None;
    case Some(v) =>
      var n := new Note(v.x, v.ms);
      r := Some(n);
  }

  lemma FieldsTextJoin(h: int, n: int)
    ensures FieldsText(h, n) == Join([FormatHundredths(h), "0", IntToString(n)], '|')
    ensures '|' !in FormatHundredths(h) && '|' !in IntToString(n) && '|' !in "0"
  {
    var a := FormatHundredths(h);
    var c := IntToString(n);
    assert [a, "0", c][1..] == ["0", c];
    assert ["0", c][1..] == [c];
    assert Join([c], '|') == c;
    assert Join(["0", c], '|') == "0" + ['|'] + c;
    assert Join([a, "0", c], '|') == a + ['|'] + ("0" + ['|'] + c);
    assert FieldsText(h, n) == a + ['|'] + ("0" + ['|'] + c);
    FieldsFreeOfBars(h, n);
  }

  /** Neither number's text contains the field separator '|'. */
  lemma FieldsFreeOfBars(h: int, n: int)
    ensures '|' !in FormatHundredths(h) && '|' !in IntToString(n)
  {
    var a := FormatHundredths(h);
    var c := IntToString(n);
    assert forall k :: 0 <= k < |a| ==> a[k] != '|';
    assert forall k :: 0 <= k < |c| ==> c[k] != '|';
  }

  lemma FieldsTextSplit(h: int, n: int)
    ensures Split(FieldsText(h, n), '|') == [FormatHundredths(h), "0", IntToString(n)]
  {
    FieldsTextJoin(h, n);
    SplitJoin([FormatHundredths(h), "0", IntToString(n)], '|');
  }

  /**
   * The fields text holds no comma or line feed and is not blank, so it
   * survives a split on ',' and on a line separator.
   */
  lemma FieldsTextChars(h: int, n: int)
    ensures ',' !in FieldsText(h, n) && '\n' !in FieldsText(h, n)
    ensures !IsBlank(FieldsText(h, n))
  {
    var a := FormatHundredths(h);
    var c := IntToString(n);
    var s := FieldsText(h, n);
    assert s == a + "|0|" + c;
    assert forall k :: 0 <= k < |a| ==> a[k] != ',' && a[k] != '\n';
    assert forall k :: 0 <= k < |c| ==> c[k] != ',' && c[k] != '\n';
    assert s[|a|] == '|';
  }

  /** Reading the fields text gives back the lane as h hundredths and the number unchanged. */
  lemma FieldsTextRoundTrip(h: int, n: int)
    ensures ParseNoteText(FieldsText(h, n)) == Some(NoteValue(h as real / 100.0, n))
  {
    var a, c := FormatHundredths(h), IntToString(n);
    var x := h as real / 100.0;
    assert ParseDecimal(a) == Some(x) by { DecimalRoundTrip(h); }
    assert ParseInt(c) == Some(n) by { IntRoundTrip(n); }
    FieldsTextSplit(h, n);
    ParseFields(FieldsText(h, n), a, "0", c, x, n);
  }

  /**
   * Reading back the text of a note (without its leading comma) gives the
   * same time and the lane rounded to two decimal places.
   */
  lemma NoteTextRoundTrip(v: NoteValue)
    ensures ParseNoteText(NoteText(v)[1..]) == Some(NoteValue(Round2(v.x), v.ms))
  {
    assert NoteText(v)[1..] == FieldsText(Hundredths(v.x), v.ms);
    FieldsTextRoundTrip(Hundredths(v.x), v.ms);
  }

  lemma ParseFields(s: string, a: string, b: string, c: string, x: real, ms: int)
    requires Split(s, '|') == [a, b, c]
    requires ParseDecimal(a) == Some(x) && ParseInt(c) == Some(ms)
    ensures ParseNoteText(s) == Some(NoteValue(x, ms))
  {
  }

  /** The middle field is never read: any two texts that differ only there parse alike. */
  lemma MiddleFieldIgnored(a: string, b1: string, b2: string, c: string)
    requires '|' !in a && '|' !in b1 && '|' !in b2
    ensures ParseNoteText(a + "|" + b1 + "|" + c) == ParseNoteText(a + "|" + b2 + "|" + c)
  {
    ThreeFields(a, b1, c);
    ThreeFields(a, b2, c);
  }

  lemma ThreeFields(a: string, b: string, c: string)
    requires '|' !in a && '|' !in b
    ensures Split(a + "|" + b + "|" + c, '|') == [a, b] + Split(c, '|')
  {
    var t := Split(c, '|');
    var tail := ['|'] + c;
    var mid := b + tail;
    var rest := ['|'] + mid;
    assert a + "|" + b + "|" + c == a + rest;
    var y := Split(mid, '|');
    assert y == [b] + t by {
      SplitPrefix(b, tail, '|');
      SplitAtSeparator(c, '|');
      var x := Split(tail, '|');
      assert x[0] == "" && x[1..] == t;
      assert b + x[0] == b;
    }
    var z := Split(rest, '|');
    assert z[0] == "" && z[1..] == [b] + t by {
      SplitAtSeparator(mid, '|');
    }
    assert Split(a + rest, '|') == [a + z[0]] + z[1..] by {
      SplitPrefix(a, rest, '|');
    }
    assert a + z[0] == a;
  }
}
