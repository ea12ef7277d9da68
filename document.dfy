// The open documents (Map.cs). A Map keeps one beatmap's lists, scalars
// and undo history while another map is being edited; MakeCurrent swaps it
// into the single editing context and Save copies the context back into
// it. The lists are copied, but the notes and timing points in them are
// objects the map and the context share. A map's cache record
// (ToString/FromString) is the text the editor keeps between sessions:
// ten items joined with "\n\0".

module Documents {
  import opened Common
  import opened Text
  import opened Notes
  import opened Timing
  import opened Bookmarks
  import opened Commands
  import opened Editing
  import MapCodec

  // ---------------------------------------------------------------------
  // The cache record as values

  /** The separator between the items of a cache record. */
  const Sep: string := "\n\0"

  /** The range of int.Parse (a 32-bit int). */
  const IntMin: int := -0x8000_0000
  const IntMax: int := 0x7FFF_FFFF

  /**
   * What a cache record holds: the notes and timing points as values, the
   * bookmarks, the scalars and the file a map was opened from.
   */
  datatype Doc = Doc(notes: seq<NoteValue>, points: seq<Tempo>, bookmarks: seq<Bookmark>,
                     tempo: real, zoom: real, fileName: Option<string>, soundId: string,
                     currentTime: real, beatDivisor: real, exportOffset: int)

  /**
   * The text forms this model does not define: TimingPoint.ToString,
   * Bookmark.ToString and float.ToString in the invariant culture.
   */
  datatype Formats = Formats(point: Tempo -> string, bookmark: Bookmark -> string, number: real -> string)

  /**
   * The parsing constructors TimingPoint(string) and Bookmark(string), and
   * float.Parse in the invariant culture; None where they throw.
   */
  datatype Readers = Readers(point: string -> Option<Tempo>, bookmark: string -> Option<Bookmark>, number: string -> Option<real>)

  /** s[Math.Min(1, s.Length)..]: the text without its first character, if it has one. */
  function DropFirst(s: string): (r: string)
    ensures s != [] ==> r == s[1..]
    ensures s == [] ==> r == []
  {
    s[MinInt(1, |s|)..]
  }

  /** string.Join("", texts): the texts of xs one after another. */
  function Concat<T>(xs: seq<T>, text: T -> string): string
  {
    if xs == [] then "" else text(xs[0]) + Concat(xs[1..], text)
  }

  /** ParseNotes, ParseTimings and ParseBookmarks: the item texts run together, less the first character. */
  function ListText<T>(xs: seq<T>, text: T -> string): string
  {
    DropFirst(Concat(xs, text))
  }

  /** The ten items of ToString, in order: the three lists, then the scalars. */
  function CacheItems(d: Doc, f: Formats): (r: seq<string>)
    ensures |r| == 10
  {
    ListItems(d, f) + ScalarItems(d, f)
  }

  /** The list items: notes, timing points, bookmarks. */
  function ListItems(d: Doc, f: Formats): (r: seq<string>)
    ensures |r| == 3
  {
    [ListText(d.notes, NoteText), ListText(d.points, f.point), ListText(d.bookmarks, f.bookmark)]
  }

  /** The scalar items: tempo, zoom, file name (empty for none), sound id, time, divisor, offset. */
  function ScalarItems(d: Doc, f: Formats): (r: seq<string>)
    ensures |r| == 7
  {
    [f.number(d.tempo), f.number(d.zoom), if d.fileName.Some? then d.fileName.value else "", d.soundId,
     f.number(d.currentTime), f.number(d.beatDivisor), IntToString(d.exportOffset)]
  }

  /** Each item of the record by its index. */
  lemma CacheItemsAt(d: Doc, f: Formats)
    ensures var r := CacheItems(d, f);
      && r[0] == ListText(d.notes, NoteText) && r[1] == ListText(d.points, f.point)
      && r[2] == ListText(d.bookmarks, f.bookmark)
      && r[3] == f.number(d.tempo) && r[4] == f.number(d.zoom)
      && r[5] == (if d.fileName.Some? then d.fileName.value else "") && r[6] == d.soundId
      && r[7] == f.number(d.currentTime) && r[8] == f.number(d.beatDivisor) && r[9] == IntToString(d.exportOffset)
  {
  }

  /** Map.ToString: the items joined with "\n\0". */
  function CacheText(d: Doc, f: Formats): string
  {
    JoinWith(CacheItems(d, f), Sep)
  }

  /** int.Parse: None where it throws, on bad text or on a value outside 32 bits. */
  function ParseInt32(s: string): (r: Option<int>)
    ensures r.Some? ==> IntMin <= r.value <= IntMax
    ensures r.Some? <==> ParseInt(s).Some? && IntMin <= ParseInt(s).value <= IntMax
  {
    match ParseInt(s)
    case None => None
    case Some(v) => if IntMin <= v <= IntMax then Some(v) else None
  }

  /**
   * The parts read one by one; None as soon as one of them does not read
   * (the constructor throws).
   */
  function ReadEach<T>(parts: seq<string>, read: string -> Option<T>): (r: Option<seq<T>>)
    ensures r.Some? <==> forall i :: 0 <= i < |parts| ==> read(parts[i]).Some?
    ensures r.Some? ==> |r.value| == |parts| && forall i :: 0 <= i < |parts| ==> read(parts[i]) == Some(r.value[i])
  {
    if parts == [] then Some([])
    else
      var rest := ReadEach(parts[1..], read);
      assert forall i :: 1 <= i < |parts| ==> parts[i] == parts[1..][i - 1];
      match read(parts[0])
      case None => None
      case Some(x) =>
        match rest
        case None => None
        case Some(xs) => Some([x] + xs)
  }

  /** One list item of the record: nothing when it is empty, else its comma-separated parts read in turn. */
  function ReadList<T>(item: string, read: string -> Option<T>): Option<seq<T>>
  {
    if |item| > 0 then ReadEach(Split(item, ','), read) else Some([])
  }

  /**
   * What FromString reads from the items of a record: None where it
   * throws, because an item is missing or one does not parse. An empty
   * file name item stands for no file.
   */
  function ReadItems(items: seq<string>, rd: Readers): (r: Option<Doc>)
    ensures r.Some? ==> |items| >= 10
    ensures r.Some? ==> (r.value.fileName.None? <==> items[5] == "")
    ensures r.Some? ==> IntMin <= r.value.exportOffset <= IntMax
  {
    if |items| < 10 then None
    else
      var ns, ps, bs := ReadList(items[0], ParseNoteText), ReadList(items[1], rd.point), ReadList(items[2], rd.bookmark);
      var tempo, zoom := rd.number(items[3]), rd.number(items[4]);
      var time, divisor := rd.number(items[7]), rd.number(items[8]);
      var offset := ParseInt32(items[9]);
      if ns.None? || ps.None? || bs.None? || tempo.None? || zoom.None? || time.None? || divisor.None? || offset.None? then None
      else
        Some(Doc(ns.value, ps.value, bs.value, tempo.value, zoom.value,
                 if items[5] != "" then Some(items[5]) else None, items[6],
                 time.value, divisor.value, offset.value))
  }

  /** What FromString reads from a record: its items, split on "\n\0". */
  function ReadCache(data: string, rd: Readers): Option<Doc>
  {
    ReadItems(SplitOn(data, Sep), rd)
  }

  // ---------------------------------------------------------------------
  // The record reads back

  /** The body of each item's text, after its first character. */
  function Bodies<T>(xs: seq<T>, text: T -> string): (bs: seq<string>)
    ensures |bs| == |xs|
    ensures forall i :: 0 <= i < |xs| ==> bs[i] == DropFirst(text(xs[i]))
  {
    if xs == [] then [] else [DropFirst(text(xs[0]))] + Bodies(xs[1..], text)
  }

  /** An item's text is a comma, then a non-empty body without commas or line feeds. */
  predicate Listable(t: string)
  {
    |t| >= 2 && t[0] == ',' && ',' !in t[1..] && '\n' !in t
  }

  /** Run together, texts that each start with a comma are that comma and their bodies joined with commas. */
  lemma {:induction false} ConcatOfBodies<T>(xs: seq<T>, text: T -> string)
    requires |xs| > 0
    requires forall i :: 0 <= i < |xs| ==> Listable(text(xs[i]))
    ensures Concat(xs, text) == "," + Join(Bodies(xs, text), ',')
  {
    var b := Bodies(xs, text);
    assert text(xs[0]) == "," + b[0];
    if |xs| > 1 {
      ConcatOfBodies(xs[1..], text);
      assert Bodies(xs[1..], text) == b[1..];
      assert Join(b, ',') == b[0] + [','] + Join(b[1..], ',');
    } else {
      assert Concat(xs[1..], text) == "";
    }
  }

  /**
   * A list item of the record reads back as ys when each item's text is
   * listable and its body reads as the matching element of ys; such an
   * item holds no line feed.
   */
  lemma ListReadsBack<T, U>(xs: seq<T>, text: T -> string, read: string -> Option<U>, ys: seq<U>)
    requires |ys| == |xs|
    requires forall i :: 0 <= i < |xs| ==> Listable(text(xs[i])) && read(DropFirst(text(xs[i]))) == Some(ys[i])
    ensures ReadList(ListText(xs, text), read) == Some(ys)
    ensures '\n' !in ListText(xs, text)
  {
    if xs != [] {
      var b := Bodies(xs, text);
      ConcatOfBodies(xs, text);
      assert ListText(xs, text) == Join(b, ',');
      SplitJoin(b, ',');
      JoinWithout(b, ',', '\n');
      assert |b[0]| > 0;
      assert |Join(b, ',')| > 0 by {
        if |b| > 1 {
          assert Join(b, ',') == b[0] + [','] + Join(b[1..], ',');
        }
      }
      var r := ReadEach(b, read);
      assert r.Some?;
      assert r.value == ys;
    }
  }

  /** Every note's text is listable and reads back as the note with its lane rounded to two places. */
  lemma NotesReadBack(vs: seq<NoteValue>)
    ensures ReadList(ListText(vs, NoteText), ParseNoteText) == Some(MapCodec.RoundedLanes(vs))
    ensures '\n' !in ListText(vs, NoteText)
  {
    forall i | 0 <= i < |vs|
      ensures Listable(NoteText(vs[i])) && ParseNoteText(DropFirst(NoteText(vs[i]))) == Some(MapCodec.RoundedLanes(vs)[i])
    {
      var h := Hundredths(vs[i].x);
      FieldsTextChars(h, vs[i].ms);
      NoteTextRoundTrip(vs[i]);
      assert NoteText(vs[i])[1..] == FieldsText(h, vs[i].ms);
      assert |FieldsText(h, vs[i].ms)| >= 1;
    }
    ListReadsBack(vs, NoteText, ParseNoteText, MapCodec.RoundedLanes(vs));
  }

  /** No item holds a line feed, the first character of the separator. */
  predicate Writable(d: Doc, f: Formats)
  {
    forall k :: 0 <= k < 10 ==> '\n' !in CacheItems(d, f)[k]
  }

  /** A record whose items hold no line feed splits back into exactly its ten items. */
  lemma CacheTextItems(d: Doc, f: Formats)
    requires Writable(d, f)
    ensures SplitOn(CacheText(d, f), Sep) == CacheItems(d, f)
  {
    var items := CacheItems(d, f);
    FreeOfFirst(items[9], Sep);
    SplitOnJoinWith(items, Sep);
  }

  /** What a record written from d is meant to read back as: lanes rounded to two places, an empty file name as none. */
  function Reloaded(d: Doc): (r: Doc)
    ensures r.notes == MapCodec.RoundedLanes(d.notes)
    ensures r.fileName.None? <==> d.fileName.None? || d.fileName == Some("")
    ensures r.fileName.Some? ==> r.fileName == d.fileName
    ensures r.(notes := d.notes, fileName := d.fileName) == d
  {
    d.(notes := MapCodec.RoundedLanes(d.notes), fileName := if d.fileName == Some("") then None else d.fileName)
  }

  /** float.Parse reads the four numbers back from their text exactly, and the text holds no line feed. */
  predicate NumbersReadBack(d: Doc, f: Formats, rd: Readers)
  {
    && rd.number(f.number(d.tempo)) == Some(d.tempo) && '\n' !in f.number(d.tempo)
    && rd.number(f.number(d.zoom)) == Some(d.zoom) && '\n' !in f.number(d.zoom)
    && rd.number(f.number(d.currentTime)) == Some(d.currentTime) && '\n' !in f.number(d.currentTime)
    && rd.number(f.number(d.beatDivisor)) == Some(d.beatDivisor) && '\n' !in f.number(d.beatDivisor)
  }

  /** The timing point and bookmark texts are listable and read back. */
  predicate ListsReadBack(d: Doc, f: Formats, rd: Readers)
  {
    && (forall i :: 0 <= i < |d.points| ==>
          Listable(f.point(d.points[i])) && rd.point(DropFirst(f.point(d.points[i]))) == Some(d.points[i]))
    && (forall i :: 0 <= i < |d.bookmarks| ==>
          Listable(f.bookmark(d.bookmarks[i])) && rd.bookmark(DropFirst(f.bookmark(d.bookmarks[i]))) == Some(d.bookmarks[i]))
  }

  /** The three list items of a record read back: the notes with rounded lanes, the rest unchanged; none holds a line feed. */
  lemma ListItemsReadBack(d: Doc, f: Formats, rd: Readers)
    requires ListsReadBack(d, f, rd)
    ensures ReadList(ListText(d.notes, NoteText), ParseNoteText) == Some(MapCodec.RoundedLanes(d.notes))
    ensures ReadList(ListText(d.points, f.point), rd.point) == Some(d.points)
    ensures ReadList(ListText(d.bookmarks, f.bookmark), rd.bookmark) == Some(d.bookmarks)
    ensures '\n' !in ListText(d.notes, NoteText) && '\n' !in ListText(d.points, f.point)
    ensures '\n' !in ListText(d.bookmarks, f.bookmark)
  {
    NotesReadBack(d.notes);
    ListReadsBack(d.points, f.point, rd.point, d.points);
    ListReadsBack(d.bookmarks, f.bookmark, rd.bookmark, d.bookmarks);
  }

  /**
   * FromString of ToString: the record reads back as the map it was
   * written from, up to the lane rounding and an empty file name, when
   * the timing point and bookmark texts and the numbers read back, the
   * names hold no line feed and the offset fits int.Parse.
   */
  lemma CacheRoundTrip(d: Doc, f: Formats, rd: Readers)
    requires ListsReadBack(d, f, rd)
    requires NumbersReadBack(d, f, rd)
    requires '\n' !in d.soundId && (d.fileName.Some? ==> '\n' !in d.fileName.value)
    requires IntMin <= d.exportOffset <= IntMax
    ensures ReadCache(CacheText(d, f), rd) == Some(Reloaded(d))
  {
    ListItemsReadBack(d, f, rd);
    ItemsWritable(d, f, rd);
    CacheTextItems(d, f);
    ItemsReadBack(d, f, rd);
  }

  lemma ItemsWritable(d: Doc, f: Formats, rd: Readers)
    requires '\n' !in ListText(d.notes, NoteText) && '\n' !in ListText(d.points, f.point)
    requires '\n' !in ListText(d.bookmarks, f.bookmark)
    requires NumbersReadBack(d, f, rd)
    requires '\n' !in d.soundId && (d.fileName.Some? ==> '\n' !in d.fileName.value)
    ensures Writable(d, f)
  {
    CacheItemsAt(d, f);
  }

  /** The items of the record of d read back as d, up to the lane rounding and an empty file name. */
  lemma ItemsReadBack(d: Doc, f: Formats, rd: Readers)
    requires ReadList(ListText(d.notes, NoteText), ParseNoteText) == Some(MapCodec.RoundedLanes(d.notes))
    requires ReadList(ListText(d.points, f.point), rd.point) == Some(d.points)
    requires ReadList(ListText(d.bookmarks, f.bookmark), rd.bookmark) == Some(d.bookmarks)
    requires NumbersReadBack(d, f, rd)
    requires IntMin <= d.exportOffset <= IntMax
    ensures ReadItems(CacheItems(d, f), rd) == Some(Reloaded(d))
  {
    var items, r := CacheItems(d, f), Reloaded(d);
    CacheItemsAt(d, f);
    IntRoundTrip(d.exportOffset);
    ReadItemsOf(items, rd, r);
  }

  /** Items that are there and read as the fields of d read as d. */
  lemma ReadItemsOf(items: seq<string>, rd: Readers, d: Doc)
    requires |items| >= 10
    requires ReadList(items[0], ParseNoteText) == Some(d.notes)
    requires ReadList(items[1], rd.point) == Some(d.points)
    requires ReadList(items[2], rd.bookmark) == Some(d.bookmarks)
    requires rd.number(items[3]) == Some(d.tempo) && rd.number(items[4]) == Some(d.zoom)
    requires d.fileName == (if items[5] != "" then Some(items[5]) else None)
    requires d.soundId == items[6]
    requires rd.number(items[7]) == Some(d.currentTime) && rd.number(items[8]) == Some(d.beatDivisor)
    requires ParseInt32(items[9]) == Some(d.exportOffset)
    ensures ReadItems(items, rd) == Some(d)
  {
  }

  /** An offset outside 32 bits is written as a long but read with int.Parse: the record no longer loads. */
  lemma WideOffsetNotRead(d: Doc, f: Formats, rd: Readers)
    requires Writable(d, f)
    requires d.exportOffset < IntMin || d.exportOffset > IntMax
    ensures ReadCache(CacheText(d, f), rd).None?
  {
    CacheTextItems(d, f);
    IntRoundTrip(d.exportOffset);
  }

  /** A record with fewer than ten items does not load. */
  lemma MissingItemNotRead(data: string, rd: Readers)
    requires |SplitOn(data, Sep)| < 10
    ensures ReadCache(data, rd).None?
  {
  }

  // ---------------------------------------------------------------------
  // The record's lists as methods

  lemma ConcatSnoc<T>(xs: seq<T>, x: T, text: T -> string)
    ensures Concat(xs + [x], text) == Concat(xs, text) + text(x)
  {
    if xs != [] {
      assert (xs + [x])[1..] == xs[1..] + [x];
      ConcatSnoc(xs[1..], x, text);
    } else {
      assert Concat([x], text) == text(x) + Concat([], text);
    }
  }

  /** ParseNotes, ParseTimings, ParseBookmarks: the loop that collects the item texts, then the first character dropped. */
  method JoinTexts<T>(xs: seq<T>, text: T -> string) returns (r: string)
    ensures r == ListText(xs, text)
  {
    var s := "";
    var i := 0;
    while i < |xs|
      invariant 0 <= i <= |xs|
      invariant s == Concat(xs[..i], text)
    {
      ConcatSnoc(xs[..i], xs[i], text);
      assert xs[..i + 1] == xs[..i] + [xs[i]];
      s := s + text(xs[i]);
      i := i + 1;
    }
    assert xs[..|xs|] == xs;
    r := s[MinInt(1, |s|)..];
  }

  /** The loop of FromString that appends a new note per part; ok is false where Note(string) throws. */
  method ReadNotes(parts: seq<string>) returns (added: seq<Note>, ok: bool)
    ensures ok == ReadEach(parts, ParseNoteText).Some?
    ensures ok ==> Values(added) == ReadEach(parts, ParseNoteText).value
    ensures forall i :: 0 <= i < |added| ==> fresh(added[i])
  {
    added, ok := ReadNoteParts(parts);
    if ok {
      ghost var r := ReadEach(parts, ParseNoteText);
      assert forall j :: 0 <= j < |added| ==> Values(added)[j] == r.value[j];
    }
  }

  /** The loop itself: each note read is appended, and it stops at the first part that does not parse. */
  method ReadNoteParts(parts: seq<string>) returns (added: seq<Note>, ok: bool)
    ensures |added| <= |parts| && (ok <==> |added| == |parts|)
    ensures !ok ==> ParseNoteText(parts[|added|]).None?
    ensures forall j :: 0 <= j < |added| ==> ParseNoteText(parts[j]) == Some(ValueOf(added[j])) && fresh(added[j])
  {
    added := [];
    var i := 0;
    while i < |parts|
      invariant 0 <= i <= |parts| && |added| == i
      invariant forall j :: 0 <= j < i ==> ParseNoteText(parts[j]) == Some(ValueOf(added[j])) && fresh(added[j])
    {
      var n := FromText(parts[i]);
      if n.None? {
        return added, false;
      }
      added := added + [n.value];
      i := i + 1;
    }
    ok := true;
  }

  /** The loop of FromString that appends a new timing point per part; ok is false where TimingPoint(string) throws. */
  method ReadPoints(parts: seq<string>, read: string -> Option<Tempo>) returns (added: seq<TimingPoint>, ok: bool)
    ensures ok == ReadEach(parts, read).Some?
    ensures ok ==> Tempos(added) == ReadEach(parts, read).value
    ensures forall i :: 0 <= i < |added| ==> fresh(added[i])
  {
    added := [];
    var i := 0;
    while i < |parts|
      invariant 0 <= i <= |parts| && |added| == i
      invariant forall j :: 0 <= j < i ==> read(parts[j]) == Some(TempoOf(added[j]))
      invariant forall j :: 0 <= j < i ==> fresh(added[j])
    {
      match read(parts[i])
      case None =>
        return added, false;
      case Some(t) =>
        var p := new TimingPoint(t.bpm, t.ms);
        added := added + [p];
        i := i + 1;
    }
    ok := true;
    var r := ReadEach(parts, read);
    assert forall j :: 0 <= j < |added| ==> Tempos(added)[j] == r.value[j];
  }

  /** The loop of FromString that appends a bookmark per part; ok is false where Bookmark(string) throws. */
  method ReadMarks(parts: seq<string>, read: string -> Option<Bookmark>) returns (added: seq<Bookmark>, ok: bool)
    ensures ok == ReadEach(parts, read).Some?
    ensures ok ==> added == ReadEach(parts, read).value
  {
    added := [];
    var i := 0;
    while i < |parts|
      invariant 0 <= i <= |parts| && |added| == i
      invariant forall j :: 0 <= j < i ==> read(parts[j]) == Some(added[j])
    {
      match read(parts[i])
      case None =>
        return added, false;
      case Some(b) =>
        added := added + [b];
        i := i + 1;
    }
    ok := true;
  }

  lemma ValuesConcat(a: seq<Note>, b: seq<Note>)
    ensures Values(a + b) == Values(a) + Values(b)
  {
    assert forall i :: 0 <= i < |a + b| ==> Values(a + b)[i] == (Values(a) + Values(b))[i];
  }

  lemma TemposConcat(a: seq<TimingPoint>, b: seq<TimingPoint>)
    ensures Tempos(a + b) == Tempos(a) + Tempos(b)
  {
    assert forall i :: 0 <= i < |a + b| ==> Tempos(a + b)[i] == (Tempos(a) + Tempos(b))[i];
  }

  // ---------------------------------------------------------------------
  // The context and the maps

  /** What the context and a map exchange: the lists as they are (shared objects), the scalars and the history. */
  datatype State = State(notes: seq<Note>, selectedNotes: seq<Note>, points: seq<TimingPoint>, selectedPoint: TimingPoint?,
                         bookmarks: seq<Bookmark>, tempo: real, zoom: real, fileName: Option<string>, soundId: string,
                         currentTime: real, beatDivisor: real, exportOffset: int, actions: seq<Action>, index: int)

  /**
   * The context's side of the exchange. The settings' exportOffset is read
   * as a whole number of milliseconds (truncated, as the map stores a long).
   */
  function EditorState(e: Editor): State
    reads e
  {
    State(e.notes, e.selectedNotes, e.timingPoints, e.selectedPoint, e.bookmarks, e.tempo, e.zoom, e.fileName, e.soundId,
          e.currentTime, e.beatDivisor, Trunc(e.exportOffset), e.actions, e.index)
  }

  /** The record a context would write if it were a map: its lists as values and its scalars. */
  function EditorDoc(e: Editor): Doc
    reads e, e.notes, e.timingPoints
  {
    Doc(Values(e.notes), Tempos(e.timingPoints), e.bookmarks, e.tempo, e.zoom, e.fileName, e.soundId,
        e.currentTime, e.beatDivisor, Trunc(e.exportOffset))
  }

  /** FromString's lists continue the ones Save copied from the context; its scalars are the record's. */
  function Appended(base: Doc, d: Doc): (r: Doc)
    ensures |r.notes| == |base.notes| + |d.notes| && r.notes[..|base.notes|] == base.notes && r.notes[|base.notes|..] == d.notes
    ensures |r.points| == |base.points| + |d.points| && r.points[..|base.points|] == base.points && r.points[|base.points|..] == d.points
    ensures |r.bookmarks| == |base.bookmarks| + |d.bookmarks| && r.bookmarks[..|base.bookmarks|] == base.bookmarks && r.bookmarks[|base.bookmarks|..] == d.bookmarks
    ensures r.(notes := d.notes, points := d.points, bookmarks := d.bookmarks) == d
  {
    d.(notes := base.notes + d.notes, points := base.points + d.points, bookmarks := base.bookmarks + d.bookmarks)
  }

  /** MainWindow's part in document switching: the context, the current map and the open maps. */
  class Session {
    var editor: Editor
    var current: Map?
    var maps: seq<Map>

    constructor (e: Editor)
      ensures editor == e && current == null && maps == []
    {
      editor := e;
      current := null;
      maps := [];
    }
  }

  class Map {
    var notes: seq<Note>
    var selectedNotes: seq<Note>
    var timingPoints: seq<TimingPoint>
    var selectedPoint: TimingPoint?
    var bookmarks: seq<Bookmark>
    var tempo: real
    var zoom: real
    var fileName: Option<string>
    var soundId: string
    var currentTime: real
    var beatDivisor: real
    var exportOffset: int
    var urActions: seq<Action>
    var urIndex: int

    function StateOf(): State
      reads this
    {
      State(notes, selectedNotes, timingPoints, selectedPoint, bookmarks, tempo, zoom, fileName, soundId,
            currentTime, beatDivisor, exportOffset, urActions, urIndex)
    }

    function DocOf(): Doc
      reads this, notes, timingPoints
    {
      Doc(Values(notes), Tempos(timingPoints), bookmarks, tempo, zoom, fileName, soundId,
          currentTime, beatDivisor, exportOffset)
    }

    /** Save: the context's lists (the same objects), scalars and history become this map's. */
    method Save(s: Session)
      modifies this
      ensures StateOf() == EditorState(s.editor)
    {
      SaveLists(s.editor);
      SaveScalars(s.editor);
      urActions, urIndex := s.editor.actions, s.editor.index;
    }

    /** The list part of Save: the context's lists and selected point, as the same objects. */
    method SaveLists(e: Editor)
      modifies this`notes, this`selectedNotes, this`timingPoints, this`selectedPoint, this`bookmarks
      ensures notes == e.notes && selectedNotes == e.selectedNotes && timingPoints == e.timingPoints
      ensures selectedPoint == e.selectedPoint && bookmarks == e.bookmarks
    {
      notes, selectedNotes, timingPoints, selectedPoint, bookmarks :=
        e.notes, e.selectedNotes, e.timingPoints, e.selectedPoint, e.bookmarks;
    }

    /** The scalar part of Save; the settings' export offset is kept as a whole number. */
    method SaveScalars(e: Editor)
      modifies this`tempo, this`zoom, this`fileName, this`soundId, this`currentTime, this`beatDivisor, this`exportOffset
      ensures tempo == e.tempo && zoom == e.zoom && fileName == e.fileName && soundId == e.soundId
      ensures currentTime == e.currentTime && beatDivisor == e.beatDivisor && exportOffset == Trunc(e.exportOffset)
    {
      tempo, zoom, fileName, soundId := e.tempo, e.zoom, e.fileName, e.soundId;
      currentTime, beatDivisor, exportOffset := e.currentTime, e.beatDivisor, Trunc(e.exportOffset);
    }

    /**
     * MakeCurrent: the current map, if any, saves the context; this map
     * becomes current and its lists, scalars and history are installed in
     * the context, the song length too when the audio is loaded; then the
     * selection flags are brought in line with the selected list.
     */
    method MakeCurrent(s: Session, loadAudio: bool, audioMs: real)
      modifies s, s.current, this, s.editor, notes`selected, selectedNotes`selected,
        s.editor.notes`selected, s.editor.selectedNotes`selected
      ensures s.current == this && s.editor == old(s.editor) && s.maps == old(s.maps)
      ensures old(s.current) != null && old(s.current) != this ==> old(s.current).StateOf() == old(EditorState(s.editor))
      ensures StateOf() == if old(s.current) == this then old(EditorState(s.editor)) else old(StateOf())
      ensures EditorState(s.editor) == StateOf()
      ensures s.editor.exportOffset == exportOffset as real
      ensures s.editor.currentTimeMax == if loadAudio then audioMs else old(s.editor.currentTimeMax)
      ensures s.editor.SelectionSynced()
    {
      if s.current != null {
        s.current.Save(s);
      }
      s.current := this;
      Install(s.editor, loadAudio, audioMs);
      s.editor.UpdateSelection();
    }

    /**
     * Switching to a map and saving it straight away stores what the map
     * already held; when it was already current, it stores the context as
     * it stood.
     */
    method MakeCurrentThenSave(s: Session, loadAudio: bool, audioMs: real)
      modifies s, s.current, this, s.editor, notes`selected, selectedNotes`selected,
        s.editor.notes`selected, s.editor.selectedNotes`selected
      ensures old(s.current) != this ==> StateOf() == old(StateOf())
      ensures old(s.current) == this ==> StateOf() == old(EditorState(s.editor))
    {
      MakeCurrent(s, loadAudio, audioMs);
      Save(s);
    }

    /** The copies MakeCurrent makes into the context: lists, scalars, the song length when the audio is loaded, and the history. */
    method Install(e: Editor, loadAudio: bool, audioMs: real)
      modifies e
      ensures EditorState(e) == StateOf()
      ensures e.exportOffset == exportOffset as real
      ensures e.currentTimeMax == if loadAudio then audioMs else old(e.currentTimeMax)
    {
      InstallLists(e);
      InstallScalars(e);
      e.currentTimeMax := if loadAudio then audioMs else e.currentTimeMax;
      e.actions, e.index := urActions, urIndex;
      TruncWhole(exportOffset);
    }

    /** The list part of Install: this map's lists and selected point, as the same objects. */
    method InstallLists(e: Editor)
      modifies e`notes, e`selectedNotes, e`timingPoints, e`selectedPoint, e`bookmarks
      ensures e.notes == notes && e.selectedNotes == selectedNotes && e.timingPoints == timingPoints
      ensures e.selectedPoint == selectedPoint && e.bookmarks == bookmarks
    {
      e.notes, e.selectedNotes, e.timingPoints, e.selectedPoint, e.bookmarks :=
        notes, selectedNotes, timingPoints, selectedPoint, bookmarks;
    }

    /** The scalar part of Install. */
    method InstallScalars(e: Editor)
      modifies e`tempo, e`zoom, e`fileName, e`soundId, e`currentTime, e`beatDivisor, e`exportOffset
      ensures e.tempo == tempo && e.zoom == zoom && e.fileName == fileName && e.soundId == soundId
      ensures e.currentTime == currentTime && e.beatDivisor == beatDivisor && e.exportOffset == exportOffset as real
    {
      e.tempo, e.zoom, e.fileName, e.soundId := tempo, zoom, fileName, soundId;
      e.currentTime, e.beatDivisor, e.exportOffset := currentTime, beatDivisor, exportOffset as real;
    }

    /**
     * Close: this map is made current (without loading audio); it closes
     * when it need not be saved or SaveMap succeeds, and then leaves the
     * list of open maps. `saved` stands for what SaveMap returns.
     */
    method Close(s: Session, shouldSave: bool, saved: bool) returns (close: bool)
      modifies s, s.current, this, s.editor, notes`selected, selectedNotes`selected,
        s.editor.notes`selected, s.editor.selectedNotes`selected
      ensures close <==> !shouldSave || saved
      ensures s.maps == if close then RemoveFirst(old(s.maps), this) else old(s.maps)
      ensures close && Distinct(old(s.maps)) ==> this !in s.maps && Distinct(s.maps)
      ensures close ==> forall m :: m != this ==> (m in s.maps <==> m in old(s.maps))
      ensures s.current == this && EditorState(s.editor) == StateOf()
    {
      MakeCurrent(s, false, 0.0);
      close := !shouldSave || saved;
      if close {
        ghost var before := s.maps;
        s.maps := RemoveFirst(s.maps, this);
        if Distinct(before) {
          RemoveFirstDistinct(before, this);
        }
        forall m | m != this ensures m in s.maps <==> m in before {
          RemoveFirstIn(before, this, m);
        }
      }
    }

    /** The items of ToString: three loops for the lists, then the scalars. */
    method ToString(f: Formats) returns (r: string)
      ensures r == CacheText(DocOf(), f)
    {
      var ns := JoinTexts(Values(notes), NoteText);
      var ps := JoinTexts(Tempos(timingPoints), f.point);
      var bs := JoinTexts(bookmarks, f.bookmark);
      var lists := [ns, ps, bs];
      var scalars := [f.number(tempo), f.number(zoom), if fileName.Some? then fileName.value else "", soundId,
                      f.number(currentTime), f.number(beatDivisor), IntToString(exportOffset)];
      assert lists == ListItems(DocOf(), f);
      assert scalars == ScalarItems(DocOf(), f);
      r := JoinWith(lists + scalars, Sep);
    }

    /**
     * The list part of FromString: each list item split on ',' and read
     * part by part, the new notes, points and bookmarks appended to this
     * map's lists, up to the part that does not read.
     */
    method LoadLists(items: seq<string>, rd: Readers) returns (ok: bool)
      requires |items| >= 3
      modifies this`notes, this`timingPoints, this`bookmarks
      ensures ok <==> ReadList(items[0], ParseNoteText).Some? && ReadList(items[1], rd.point).Some?
                      && ReadList(items[2], rd.bookmark).Some?
      ensures ok ==> Values(notes) == old(Values(notes)) + ReadList(items[0], ParseNoteText).value
      ensures ok ==> Tempos(timingPoints) == old(Tempos(timingPoints)) + ReadList(items[1], rd.point).value
      ensures ok ==> bookmarks == old(bookmarks) + ReadList(items[2], rd.bookmark).value
      ensures |notes| >= old(|notes|) && notes[..old(|notes|)] == old(notes)
      ensures |timingPoints| >= old(|timingPoints|) && timingPoints[..old(|timingPoints|)] == old(timingPoints)
    {
      ok := AppendNotes(items[0]);
      if !ok {
        return;
      }
      ok := AppendPoints(items[1], rd.point);
      if !ok {
        return;
      }
      ok := AppendMarks(items[2], rd.bookmark);
    }

    /** The notes of a list item appended, each a new note, up to the first part that does not read. */
    method AppendNotes(item: string) returns (ok: bool)
      modifies this`notes
      ensures ok == ReadList(item, ParseNoteText).Some?
      ensures ok ==> Values(notes) == old(Values(notes)) + ReadList(item, ParseNoteText).value
      ensures |notes| >= old(|notes|) && notes[..old(|notes|)] == old(notes)
      ensures forall i :: old(|notes|) <= i < |notes| ==> fresh(notes[i])
    {
      var parts := if |item| > 0 then Split(item, ',') else [];
      var added;
      added, ok := ReadNotes(parts);
      ValuesConcat(notes, added);
      notes := notes + added;
    }

    /** The timing points of a list item appended, each a new point, up to the first part that does not read. */
    method AppendPoints(item: string, read: string -> Option<Tempo>) returns (ok: bool)
      modifies this`timingPoints
      ensures ok == ReadList(item, read).Some?
      ensures ok ==> Tempos(timingPoints) == old(Tempos(timingPoints)) + ReadList(item, read).value
      ensures |timingPoints| >= old(|timingPoints|) && timingPoints[..old(|timingPoints|)] == old(timingPoints)
      ensures forall i :: old(|timingPoints|) <= i < |timingPoints| ==> fresh(timingPoints[i])
    {
      var parts := if |item| > 0 then Split(item, ',') else [];
      var added;
      added, ok := ReadPoints(parts, read);
      TemposConcat(timingPoints, added);
      timingPoints := timingPoints + added;
    }

    /** The bookmarks of a list item appended, up to the first part that does not read. */
    method AppendMarks(item: string, read: string -> Option<Bookmark>) returns (ok: bool)
      modifies this`bookmarks
      ensures ok == ReadList(item, read).Some?
      ensures ok ==> bookmarks == old(bookmarks) + ReadList(item, read).value
    {
      var parts := if |item| > 0 then Split(item, ',') else [];
      var added;
      added, ok := ReadMarks(parts, read);
      bookmarks := bookmarks + added;
    }

    /**
     * The scalar part of FromString, item by item in the order the source
     * reads them; ok is false at the first item that is missing or does
     * not parse.
     */
    method LoadScalars(items: seq<string>, rd: Readers) returns (ok: bool)
      modifies this`tempo, this`zoom, this`fileName, this`soundId, this`currentTime, this`beatDivisor, this`exportOffset
      ensures ok <==> |items| >= 10 && rd.number(items[3]).Some? && rd.number(items[4]).Some?
                      && rd.number(items[7]).Some? && rd.number(items[8]).Some? && ParseInt32(items[9]).Some?
      ensures ok ==> tempo == rd.number(items[3]).value && zoom == rd.number(items[4]).value
      ensures ok ==> fileName == (if items[5] != "" then Some(items[5]) else None) && soundId == items[6]
      ensures ok ==> currentTime == rd.number(items[7]).value && beatDivisor == rd.number(items[8]).value
      ensures ok ==> exportOffset == ParseInt32(items[9]).value
      ensures Values(notes) == old(Values(notes)) && Tempos(timingPoints) == old(Tempos(timingPoints))
    {
      if |items| < 4 || rd.number(items[3]).None? {
        return false;
      }
      tempo := rd.number(items[3]).value;
      if |items| < 5 || rd.number(items[4]).None? {
        return false;
      }
      zoom := rd.number(items[4]).value;
      if |items| < 6 {
        return false;
      }
      fileName := if items[5] != "" then Some(items[5]) else None;
      if |items| < 7 {
        return false;
      }
      soundId := items[6];
      if |items| < 8 || rd.number(items[7]).None? {
        return false;
      }
      currentTime := rd.number(items[7]).value;
      if |items| < 9 || rd.number(items[8]).None? {
        return false;
      }
      beatDivisor := rd.number(items[8]).value;
      if |items| < 10 || ParseInt32(items[9]).None? {
        return false;
      }
      exportOffset := ParseInt32(items[9]).value;
      ok := true;
    }

    /**
     * FromString: Save first copies the context into this map; the record
     * is split on "\n\0", its lists are read and appended, its scalars
     * replace this map's, and the history index becomes -1. It returns
     * false where the source throws: a missing item or one that does not
     * parse.
     */
    method FromString(s: Session, data: string, rd: Readers) returns (ok: bool)
      modifies this
      ensures ok == ReadCache(data, rd).Some?
      ensures ok ==> DocOf() == Appended(old(EditorDoc(s.editor)), ReadCache(data, rd).value)
      ensures ok ==> selectedNotes == old(s.editor.selectedNotes) && selectedPoint == old(s.editor.selectedPoint)
      ensures ok ==> urActions == old(s.editor.actions) && urIndex == -1
      ensures |notes| >= |old(s.editor.notes)| && notes[..|old(s.editor.notes)|] == old(s.editor.notes)
      ensures |timingPoints| >= |old(s.editor.timingPoints)| && timingPoints[..|old(s.editor.timingPoints)|] == old(s.editor.timingPoints)
    {
      Save(s);
      assert DocOf() == old(EditorDoc(s.editor));
      var items := SplitOn(data, Sep);
      ok := Load(items, rd);
    }

    /** The part of FromString after Save: the items read into this map, the lists appended, the scalars replaced. */
    method Load(items: seq<string>, rd: Readers) returns (ok: bool)
      modifies this`notes, this`timingPoints, this`bookmarks, this`urIndex
      modifies this`tempo, this`zoom, this`fileName, this`soundId, this`currentTime, this`beatDivisor, this`exportOffset
      ensures ok == ReadItems(items, rd).Some?
      ensures ok ==> DocOf() == Appended(old(DocOf()), ReadItems(items, rd).value) && urIndex == -1
      ensures |notes| >= old(|notes|) && notes[..old(|notes|)] == old(notes)
      ensures |timingPoints| >= old(|timingPoints|) && timingPoints[..old(|timingPoints|)] == old(timingPoints)
    {
      if |items| < 3 {
        return false;
      }
      ok := LoadLists(items, rd);
      if !ok {
        return;
      }
      ghost var vs, ts := Values(notes), Tempos(timingPoints);
      ok := LoadScalars(items, rd);
      if ok {
        urIndex := -1;
        ghost var d := ReadItems(items, rd).value;
        assert d.notes == ReadList(items[0], ParseNoteText).value && d.points == ReadList(items[1], rd.point).value;
        assert d.bookmarks == ReadList(items[2], rd.bookmark).value;
        assert Values(notes) == vs && Tempos(timingPoints) == ts;
        assert DocOf() == Doc(vs, ts, bookmarks, d.tempo, d.zoom, d.fileName, d.soundId, d.currentTime, d.beatDivisor, d.exportOffset);
      }
    }
  }
}
