// Bookmarks: a labelled time, or time range, on the track. The editor copies
// its bookmarks to the clipboard as one line per bookmark,
// "{Ms}-{EndMs} ~ {Text}" or "{Ms} ~ {Text}" when the bookmark marks a single
// point, and reads such text back line by line, skipping the lines that do
// not parse.

module Bookmarks {
  import opened Common
  import opened Text

  datatype Bookmark = Bookmark(text: string, ms: int, endMs: int)

  /** The time part of a copied line: "{Ms}-{EndMs}", or "{Ms}" for a single point. */
  function LineHead(b: Bookmark): string
  {
    if b.ms != b.endMs then IntToString(b.ms) + "-" + IntToString(b.endMs) else IntToString(b.ms)
  }

  /** One line of the copied text. */
  function BookmarkLine(b: Bookmark): string
  {
    LineHead(b) + " ~ " + b.text
  }

  function Lines(bs: seq<Bookmark>): (r: seq<string>)
    ensures |r| == |bs|
    ensures forall i :: 0 <= i < |bs| ==> r[i] == BookmarkLine(bs[i])
  {
    seq(|bs|, i requires 0 <= i < |bs| => BookmarkLine(bs[i]))
  }

  /**
   * The text CopyBookmarks puts on the clipboard: the lines joined by '\n';
   * None when there are no bookmarks and the clipboard is left alone.
   */
  function CopyText(bs: seq<Bookmark>): (r: Option<string>)
    ensures r.None? <==> bs == []
  {
    if bs == [] then None else Some(Join(Lines(bs), '\n'))
  }

  /**
   * The time part of a pasted line: one time, or two times around "-".
   * None when the line is skipped.
   */
  function ReadTimes(head: string): (r: Option<(int, int)>)
    ensures r.Some? ==> ParseInt(SplitOn(head, "-")[0]) == Some(r.value.0)
  {
    var sub := SplitOn(head, "-");
    if |sub| == 1 && ParseInt(sub[0]).Some? then
      Some((ParseInt(sub[0]).value, ParseInt(sub[0]).value))
    else if |sub| == 2 && ParseInt(sub[0]).Some? && ParseInt(sub[1]).Some? then
      Some((ParseInt(sub[0]).value, ParseInt(sub[1]).value))
    else None
  }

  /** One pasted line: two parts around " ~ ", the time part and the text. None when the line is skipped. */
  function ReadLine(line: string): (r: Option<Bookmark>)
    ensures r.Some? ==> |SplitOn(line, " ~ ")| == 2 && r.value.text == SplitOn(line, " ~ ")[1]
    ensures r.Some? ==> ParseInt(SplitOn(SplitOn(line, " ~ ")[0], "-")[0]) == Some(r.value.ms)
  {
    var split := SplitOn(line, " ~ ");
    if |split| != 2 then None
    else
      match ReadTimes(split[0])
      case None => None
      case Some((ms, endMs)) => Some(Bookmark(split[1], ms, endMs))
  }

  /** The bookmarks read from the pasted lines, in order, skipping the lines that do not parse. */
  function ReadAll(lines: seq<string>): (r: seq<Bookmark>)
    ensures |r| <= |lines|
  {
    if lines == [] then []
    else
      var front := ReadAll(lines[..|lines| - 1]);
      match ReadLine(lines[|lines| - 1])
      case None => front
      case Some(b) => front + [b]
  }

  /** The bookmark list after a paste of `data`: the old list when no line parses. */
  function Pasted(previous: seq<Bookmark>, data: string): seq<Bookmark>
  {
    var read := ReadAll(Split(data, '\n'));
    if read == [] then previous else read
  }

  /** Bookmarks that survive the text form: non-negative times, and text free of line breaks and of " ~ ". */
  predicate Copyable(b: Bookmark)
  {
    b.ms >= 0 && b.endMs >= 0 && '\n' !in b.text && Free(b.text, " ~ ")
  }

  lemma NonNegativeText(n: int)
    requires n >= 0
    ensures '-' !in IntToString(n) && ' ' !in IntToString(n) && '\n' !in IntToString(n)
  {
    var s := IntToString(n);
    assert s == NatToString(n);
    assert forall k :: 0 <= k < |s| ==> IsDigit(s[k]);
  }

  /** The time part reads back as the bookmark's times, one field for a single point and two for a range. */
  lemma HeadReadsBack(b: Bookmark)
    requires b.ms >= 0 && b.endMs >= 0
    ensures b.ms == b.endMs ==> SplitOn(LineHead(b), "-") == [IntToString(b.ms)]
    ensures b.ms != b.endMs ==> SplitOn(LineHead(b), "-") == [IntToString(b.ms), IntToString(b.endMs)]
  {
    NonNegativeText(b.ms);
    NonNegativeText(b.endMs);
    FreeOfFirst(IntToString(b.ms), "-");
    FreeOfFirst(IntToString(b.endMs), "-");
    if b.ms == b.endMs {
      SplitOnNone(IntToString(b.ms), "-");
    } else {
      var parts := [IntToString(b.ms), IntToString(b.endMs)];
      assert JoinWith(parts[1..], "-") == IntToString(b.endMs);
      assert JoinWith(parts, "-") == LineHead(b);
      SplitOnJoinWith(parts, "-");
    }
  }

  lemma LineHeadChars(b: Bookmark)
    requires b.ms >= 0 && b.endMs >= 0
    ensures ' ' !in LineHead(b) && '\n' !in LineHead(b)
  {
    NonNegativeText(b.ms);
    NonNegativeText(b.endMs);
  }

  /** A copied line reads back as the bookmark it was written from. */
  lemma LineReadsBack(b: Bookmark)
    requires Copyable(b)
    ensures ReadLine(BookmarkLine(b)) == Some(b)
  {
    LineSplits(b);
    TimesReadBack(b);
  }

  /** The time part of a copied line reads back as the bookmark's two times. */
  lemma TimesReadBack(b: Bookmark)
    requires b.ms >= 0 && b.endMs >= 0
    ensures ReadTimes(LineHead(b)) == Some((b.ms, b.endMs))
  {
    HeadReadsBack(b);
    IntRoundTrip(b.ms);
    IntRoundTrip(b.endMs);
  }

  /** A copied line falls apart at " ~ " into its time part and the text. */
  lemma LineSplits(b: Bookmark)
    requires Copyable(b)
    ensures SplitOn(BookmarkLine(b), " ~ ") == [LineHead(b), b.text]
  {
    var head := LineHead(b);
    LineHeadChars(b);
    var parts := [head, b.text];
    assert JoinWith(parts[1..], " ~ ") == b.text;
    assert JoinWith(parts, " ~ ") == BookmarkLine(b);
    SplitOnJoinWith(parts, " ~ ");
  }

  lemma ReadAllLines(bs: seq<Bookmark>)
    requires forall i :: 0 <= i < |bs| ==> Copyable(bs[i])
    ensures ReadAll(Lines(bs)) == bs
  {
    var lines := Lines(bs);
    forall i | 0 <= i < |bs| ensures ReadLine(lines[i]) == Some(bs[i]) {
      LineReadsBack(bs[i]);
    }
    ReadEach(lines, bs);
  }

  /** When every line reads as the bookmark at the same place, the paste reads the whole list. */
  lemma {:induction false} ReadEach(lines: seq<string>, bs: seq<Bookmark>)
    requires |lines| == |bs|
    requires forall i :: 0 <= i < |bs| ==> ReadLine(lines[i]) == Some(bs[i])
    ensures ReadAll(lines) == bs
  {
    if bs != [] {
      var n := |bs| - 1;
      assert lines == lines[..n] + [lines[n]];
      ReadEach(lines[..n], bs[..n]);
      ReadAllSnoc(lines[..n], lines[n], bs[n]);
      assert bs[..n] + [bs[n]] == bs;
    }
  }

  lemma ReadAllSnoc(lines: seq<string>, line: string, b: Bookmark)
    requires ReadLine(line) == Some(b)
    ensures ReadAll(lines + [line]) == ReadAll(lines) + [b]
  {
    assert (lines + [line])[..|lines|] == lines;
  }

  lemma LineChars(b: Bookmark)
    requires Copyable(b)
    ensures '\n' !in BookmarkLine(b)
  {
    LineHeadChars(b);
    assert BookmarkLine(b) == LineHead(b) + (" ~ " + b.text);
  }

  /**
   * Pasting the copied text of a non-empty list of copyable bookmarks
   * replaces any bookmark list with exactly those bookmarks.
   */
  lemma PasteOfCopy(bs: seq<Bookmark>, previous: seq<Bookmark>)
    requires bs != []
    requires forall i :: 0 <= i < |bs| ==> Copyable(bs[i])
    ensures Pasted(previous, CopyText(bs).value) == bs
  {
    var lines := Lines(bs);
    forall k | 0 <= k < |lines| ensures '\n' !in lines[k] {
      LineChars(bs[k]);
    }
    SplitJoin(lines, '\n');
    ReadAllLines(bs);
  }

  /** A single-point bookmark is written without a range, so the reader takes its one-time branch. */
  lemma SinglePointHasNoRange(b: Bookmark)
    requires b.ms == b.endMs && b.ms >= 0
    ensures |SplitOn(LineHead(b), "-")| == 1
  {
    HeadReadsBack(b);
  }

  /** Text with no parsable line leaves the bookmarks as they were. */
  lemma {:induction false} GarbageKeepsBookmarks(previous: seq<Bookmark>, data: string)
    requires forall k :: 0 <= k < |Split(data, '\n')| ==> ReadLine(Split(data, '\n')[k]).None?
    ensures Pasted(previous, data) == previous
  {
    NothingRead(Split(data, '\n'));
  }

  lemma {:induction false} NothingRead(lines: seq<string>)
    requires forall k :: 0 <= k < |lines| ==> ReadLine(lines[k]).None?
    ensures ReadAll(lines) == []
  {
    if lines != [] {
      NothingRead(lines[..|lines| - 1]);
    }
  }
}
