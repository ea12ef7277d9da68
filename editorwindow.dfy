// The editor window's side panel (GuiWindowEditor): the four nav sections
// that open and close in turn, "use current ms" for the export offset, and
// the MIRROR, TWEEN and SCALE pattern commands recorded in the history.

module EditorPanel {
  import opened Common
  import opened Text
  import opened Notes
  import opened TimeOrder
  import opened Edits
  import opened Commands
  import opened Editing

  const OptionsSection := "Options"
  const TimingSection := "Timing"
  const PatternsSection := "Patterns"
  const ReviewSection := "Review"

  /** A nav button opens its section when it is not the open one, and closes it otherwise. */
  function Toggled(nav: string, section: string): (r: string)
    ensures r == section || r == ""
    ensures section != "" ==> (r == section <==> nav != section)
  {
    if nav == section then "" else section
  }

  /** Pressing the same nav button twice returns to where the panel was, when that was closed or this section. */
  lemma ToggleTwice(nav: string, section: string)
    requires nav == "" || nav == section
    requires section != ""
    ensures Toggled(Toggled(nav, section), section) == nav
  {
  }

  /** The nav section a button id toggles (3, 4, 8 and 19), if any. */
  function SectionFor(id: int): (r: Option<string>)
    ensures r.Some? <==> id in {3, 4, 8, 19}
    ensures r.Some? ==> r.value in {OptionsSection, TimingSection, PatternsSection, ReviewSection}
  {
    match id
    case 3 => Some(OptionsSection)
    case 4 => Some(TimingSection)
    case 8 => Some(PatternsSection)
    case 19 => Some(ReviewSection)
    case _ => None
  }

  /** The nav button caption: the section's title with "<" when it is open and ">" otherwise. */
  function NavText(title: string, open: bool): (r: string)
    ensures |r| == |title| + 2 && r[..|title|] == title
    ensures r[|r| - 1] == '<' <==> open
  {
    title + " " + (if open then "<" else ">")
  }

  /** The panel: which section is open, the nav captions, the section groups' visibility and two text boxes. */
  class EditorWindow {
    var navEnabled: string
    var optionsText: string
    var timingText: string
    var patternsText: string
    var reviewText: string
    var optionsVisible: bool
    var timingVisible: bool
    var patternsVisible: bool
    var reviewVisible: bool
    var exportOffsetText: string
    var scaleText: string

    constructor (scaleText: string)
      ensures navEnabled == "" && this.scaleText == scaleText
    {
      navEnabled := "";
      this.scaleText := scaleText;
    }

    /** Each group is visible iff navEnabled names its section, and its caption says so. */
    predicate NavShown()
      reads this
    {
      && (optionsVisible <==> navEnabled == OptionsSection) && optionsText == NavText("OPTIONS", navEnabled == OptionsSection)
      && (timingVisible <==> navEnabled == TimingSection) && timingText == NavText("TIMING", navEnabled == TimingSection)
      && (patternsVisible <==> navEnabled == PatternsSection) && patternsText == NavText("PATTERNS", navEnabled == PatternsSection)
      && (reviewVisible <==> navEnabled == ReviewSection) && reviewText == NavText("REVIEW", navEnabled == ReviewSection)
    }

    /** UpdateNav: show the open section's group and hide the others. */
    method UpdateNav()
      modifies this`optionsText, this`timingText, this`patternsText, this`reviewText,
        this`optionsVisible, this`timingVisible, this`patternsVisible, this`reviewVisible
      ensures NavShown()
    {
      var optionsNav := navEnabled == OptionsSection;
      var timingNav := navEnabled == TimingSection;
      var patternsNav := navEnabled == PatternsSection;
      var reviewNav := navEnabled == ReviewSection;
      optionsText := NavText("OPTIONS", optionsNav);
      timingText := NavText("TIMING", timingNav);
      patternsText := NavText("PATTERNS", patternsNav);
      reviewText := NavText("REVIEW", reviewNav);
      optionsVisible := optionsNav;
      timingVisible := timingNav;
      patternsVisible := patternsNav;
      reviewVisible := reviewNav;
    }

    /** OnButtonClicked for a nav button: toggle its section and lay the panel out again; other ids change nothing. */
    method ToggleNav(id: int)
      modifies this
      ensures SectionFor(id).Some? ==> navEnabled == Toggled(old(navEnabled), SectionFor(id).value) && NavShown()
      ensures SectionFor(id).None? ==> unchanged(this)
      ensures exportOffsetText == old(exportOffsetText) && scaleText == old(scaleText)
    {
      var section := SectionFor(id);
      if section.Some? {
        navEnabled := if navEnabled == section.value then "" else section.value;
        UpdateNav();
      }
    }

    /** OnButtonClicked 5: the export offset box shows the truncated current time and the setting takes the current time. */
    method UseCurrentMs(e: Editor)
      modifies this`exportOffsetText, e`exportOffset
      ensures exportOffsetText == IntToString(Trunc(e.currentTime))
      ensures e.exportOffset == e.currentTime
    {
      exportOffsetText := IntToString(Trunc(e.currentTime));
      e.exportOffset := e.currentTime;
    }

    /**
     * OnButtonClicked 15: when the scale box parses and notes are selected,
     * record SCALE over the selection, with the current lanes for undo and
     * the scaled lanes for redo, and apply it; otherwise nothing happens.
     * `number` formats the percentage in the label.
     */
    method ScaleSelection(e: Editor, number: real -> string)
      requires e.HistoryValid() && Distinct(e.selectedNotes)
      modifies e`actions, e`index, e`notes, e`selectedNotes, e`selectedPoint, e`timingPoints, e.notes`selected, e.selectedNotes
      ensures e.HistoryValid()
      ensures e.notes == old(e.notes) && e.selectedNotes == old(e.selectedNotes) && e.timingPoints == old(e.timingPoints)
      ensures ParseDecimal(scaleText).None? || |e.selectedNotes| == 0 ==>
        e.actions == old(e.actions) && e.index == old(e.index)
        && forall n :: n in e.selectedNotes ==> n.x == old(n.x)
      ensures ParseDecimal(scaleText).Some? && |e.selectedNotes| > 0 ==>
        var scale := ParseDecimal(scaleText).value;
        var sel := e.selectedNotes;
        var vs := old(Values(e.selectedNotes));
        && e.actions == old(e.actions[..e.index + 1]) + [Action("SCALE " + number(scale) + "%", SetLanes(sel, LanesOf(vs), ScaledOf(vs, scale)))]
        && e.index == |e.actions| - 1
        && forall i :: 0 <= i < |sel| ==> sel[i].x == Scaled(vs[i].x, scale)
    {
      var sel := e.selectedNotes;
      var parsed := ParseDecimal(scaleText);
      if parsed.Some? && |sel| > 0 {
        var before := CurrentLanes(sel);
        var after := ScaledLanes(sel, parsed.value);
        assert before == LanesOf(Values(sel));
        assert after == ScaledOf(Values(sel), parsed.value);
        e.Record(Action("SCALE " + number(parsed.value) + "%", SetLanes(sel, before, after)), true);
      }
    }

    /** SCALE followed by undo puts every selected note back in its exact lane and the history back at its place. */
    method ScaleThenUndo(e: Editor, number: real -> string)
      requires e.HistoryValid() && Distinct(e.selectedNotes)
      modifies e`actions, e`index, e`notes, e`selectedNotes, e`selectedPoint, e`timingPoints, e.notes`selected, e.selectedNotes
      ensures e.HistoryValid() && e.index == old(e.index) && e.actions[..e.index + 1] == old(e.actions[..e.index + 1])
      ensures forall i :: 0 <= i < |old(e.selectedNotes)| ==> old(e.selectedNotes)[i].x == old(e.selectedNotes[i].x)
    {
      var sel := e.selectedNotes;
      ghost var vs := Values(sel);
      ghost var acts, idx := e.actions, e.index;
      ScaleSelection(e, number);
      if ParseDecimal(scaleText).Some? && |sel| > 0 {
        ghost var c := e.actions[e.index].command;
        assert c.SetLanes? && c.lanesOf == sel && c.lanesBefore == LanesOf(vs);
        assert e.actions[..idx + 1] == acts[..idx + 1];
        label Scaled:
        e.Undo();
        assert FieldsApplied(c, false, old@Scaled(Values(sel)), old@Scaled(Flags(sel)));
      }
    }
  }

  /** The lanes of the given note values, in order. */
  function LanesOf(vs: seq<NoteValue>): (xs: seq<real>)
    ensures |xs| == |vs|
    ensures forall i :: 0 <= i < |vs| ==> xs[i] == vs[i].x
  {
    seq(|vs|, i requires 0 <= i < |vs| => vs[i].x)
  }

  /** SCALE's new lanes for the given note values, in order. */
  function ScaledOf(vs: seq<NoteValue>, scale: real): (xs: seq<real>)
    ensures |xs| == |vs|
    ensures forall i :: 0 <= i < |vs| ==> xs[i] == Scaled(vs[i].x, scale) && LaneLow <= xs[i] <= LaneHigh
  {
    seq(|vs|, i requires 0 <= i < |vs| => Scaled(vs[i].x, scale))
  }

  /**
   * OnButtonClicked 9: when notes are selected, record MIRROR over them and
   * apply it, moving every selected note to lane 4 - X; otherwise nothing
   * happens.
   */
  method MirrorSelection(e: Editor)
    requires e.HistoryValid() && Distinct(e.selectedNotes)
    modifies e`actions, e`index, e`notes, e`selectedNotes, e`selectedPoint, e`timingPoints, e.notes`selected, e.selectedNotes
    ensures e.HistoryValid()
    ensures e.notes == old(e.notes) && e.selectedNotes == old(e.selectedNotes)
    ensures |e.selectedNotes| == 0 ==> e.actions == old(e.actions) && e.index == old(e.index)
    ensures |e.selectedNotes| > 0 ==>
      e.actions == old(e.actions[..e.index + 1]) + [Action("MIRROR", MirrorNotes(e.selectedNotes))] && e.index == |e.actions| - 1
      && forall i :: 0 <= i < |e.selectedNotes| ==> e.selectedNotes[i].x == Mirrored(old(e.selectedNotes[i].x))
  {
    var sel := e.selectedNotes;
    if |sel| > 0 {
      e.Record(Action("MIRROR", MirrorNotes(sel)), true);
    }
  }

  /** MIRROR followed by undo puts every selected note back in its exact lane and the history back at its place. */
  method MirrorThenUndo(e: Editor)
    requires e.HistoryValid() && Distinct(e.selectedNotes)
    modifies e`actions, e`index, e`notes, e`selectedNotes, e`selectedPoint, e`timingPoints, e.notes`selected, e.selectedNotes
    ensures e.HistoryValid() && e.index == old(e.index) && e.actions[..e.index + 1] == old(e.actions[..e.index + 1])
    ensures forall i :: 0 <= i < |old(e.selectedNotes)| ==> old(e.selectedNotes)[i].x == old(e.selectedNotes[i].x)
  {
    var sel := e.selectedNotes;
    ghost var vs := Values(sel);
    MirrorSelection(e);
    if |sel| > 0 {
      e.Undo();
      MirrorTwice(LanesOf(vs));
    }
  }

  /**
   * OnButtonClicked 10: when the tween of the selection yields points, one
   * fresh note per point (lane X, time (long)Y); the selection and the
   * selected point are cleared, and TWEEN is recorded over the new notes
   * and applied, adding them to the note list. Without points nothing
   * happens.
   */
  method TweenSelection(e: Editor, result: Option<seq<(real, real)>>) returns (ns: seq<Note>)
    requires e.HistoryValid()
    modifies e`actions, e`index, e`notes, e`selectedNotes, e`selectedPoint, e`timingPoints, e.notes`selected, e.selectedNotes`selected
    ensures e.HistoryValid()
    ensures result.None? || |result.value| == 0 ==>
      ns == [] && e.actions == old(e.actions) && e.index == old(e.index) && e.notes == old(e.notes) && e.selectedNotes == old(e.selectedNotes)
    ensures result.Some? && |result.value| > 0 ==>
      && |ns| == |result.value| && Distinct(ns)
      && (forall i :: 0 <= i < |ns| ==> fresh(ns[i]) && ns[i].x == result.value[i].0 && ns[i].ms == Trunc(result.value[i].1))
      && e.selectedNotes == [] && e.selectedPoint == null
      && e.actions == old(e.actions[..e.index + 1]) + [Action("TWEEN", AddNotes(ns))] && e.index == |e.actions| - 1
      && e.notes == ByTime(old(e.notes) + ns)
  {
    ns := [];
    if result.Some? && |result.value| > 0 {
      ns := NotesAt(result.value);
      e.selectedNotes := [];
      e.UpdateSelection();
      e.selectedPoint := null;
      e.RecordAdd("TWEEN", ns);
    }
  }
}
