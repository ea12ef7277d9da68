// The keybind settings window (GuiWindowKeybinds): the label that lists a
// keybind's modifiers, and the RESET buttons that put a keybind or a grid
// key back to its default. Key codes are OpenTK's GLFW key numbers.

module Keybinds {
  import opened Common
  import opened Text

  type KeyCode = int

  const KeyB: KeyCode := 66
  const KeyE: KeyCode := 69
  const KeyH: KeyCode := 72
  const KeyQ: KeyCode := 81
  const KeyR: KeyCode := 82
  const KeyT: KeyCode := 84
  const KeyW: KeyCode := 87
  const KeyTab: KeyCode := 258

  /** A key with the modifiers that must be held with it. */
  datatype Keybind = Keybind(key: KeyCode, ctrl: bool, alt: bool, shift: bool)

  /** The keybind settings the window edits (the grid keys are a separate array setting). */
  datatype Bind = HFlip | SwitchClickTool | Quantum | OpenTimings | OpenBookmarks | OpenDirectory

  // ---------------------------------------------------------------------
  // CAS

  /** The names of the held modifiers, in the order CTRL, ALT, SHIFT. */
  function Modifiers(k: Keybind): (m: seq<string>)
    ensures |m| <= 3
    ensures "CTRL" in m <==> k.ctrl
    ensures "ALT" in m <==> k.alt
    ensures "SHIFT" in m <==> k.shift
  {
    (if k.ctrl then ["CTRL"] else []) + (if k.alt then ["ALT"] else []) + (if k.shift then ["SHIFT"] else [])
  }

  /** CAS: the held modifiers joined by " + " (string.Join over an empty list is ""). */
  function CAS(k: Keybind): (r: string)
    ensures r == "" <==> !k.ctrl && !k.alt && !k.shift
  {
    var m := Modifiers(k);
    if m == [] then "" else JoinWith(m, " + ")
  }

  /** With one modifier or none, the label is that modifier's name or empty. */
  lemma CASSingle(key: KeyCode)
    ensures CAS(Keybind(key, false, false, false)) == ""
    ensures CAS(Keybind(key, true, false, false)) == "CTRL"
    ensures CAS(Keybind(key, false, true, false)) == "ALT"
    ensures CAS(Keybind(key, false, false, true)) == "SHIFT"
  {
  }

  /** With every modifier held, the label lists them in the order CTRL, ALT, SHIFT. */
  lemma CASAll(key: KeyCode)
    ensures CAS(Keybind(key, true, true, true)) == "CTRL + ALT + SHIFT"
  {
    var m := Modifiers(Keybind(key, true, true, true));
    assert m == ["CTRL", "ALT", "SHIFT"];
    assert m[1..] == ["ALT", "SHIFT"];
    assert JoinWith(m[1..], " + ") == "ALT + SHIFT";
  }

  /** Splitting a CAS label on " + " gives back the modifier names. */
  lemma CASSplits(k: Keybind)
    requires k.ctrl || k.alt || k.shift
    ensures SplitOn(CAS(k), " + ") == Modifiers(k)
  {
    var m := Modifiers(k);
    var sep := " + ";
    forall i | 0 <= i < |m| ensures sep[0] !in m[i] {
      assert m[i] == "CTRL" || m[i] == "ALT" || m[i] == "SHIFT";
    }
    FreeOfFirst(m[|m| - 1], sep);
    SplitOnJoinWith(m, sep);
  }

  /** The label tells the modifiers apart: two keybinds with the same label hold the same modifiers. */
  lemma CASDeterminesModifiers(a: Keybind, b: Keybind)
    requires CAS(a) == CAS(b)
    ensures a.ctrl == b.ctrl && a.alt == b.alt && a.shift == b.shift
  {
    if a.ctrl || a.alt || a.shift {
      CASSplits(a);
      CASSplits(b);
      assert Modifiers(a) == Modifiers(b);
    }
  }

  // ---------------------------------------------------------------------
  // The RESET buttons

  /** What a RESET button restores: a keybind setting and its box text, or one grid key and its box text. */
  datatype Reset =
    | BindReset(bind: Bind, to: Keybind, text: string)
    | GridReset(slot: nat, key: KeyCode, keyText: string)

  /**
   * The reset table of OnButtonClicked. Button 10 (OpenDirectory's RESET)
   * has no case, like every other id that is not listed.
   */
  function ResetFor(id: int): (r: Option<Reset>)
    ensures r.Some? && r.value.BindReset? ==> id in {1, 3, 4, 5, 6} && !r.value.to.alt && r.value.bind != OpenDirectory
    ensures r.Some? && r.value.GridReset? ==> 90 <= id <= 94 && r.value.slot == id - 90
    ensures r.None? <==> id !in {1, 3, 4, 5, 6, 90, 91, 92, 93, 94}
  {
    match id
    case 1 => Some(BindReset(HFlip, Keybind(KeyH, false, false, true), "H"))
    case 3 => Some(BindReset(SwitchClickTool, Keybind(KeyTab, false, false, false), "TAB"))
    case 4 => Some(BindReset(Quantum, Keybind(KeyQ, true, false, false), "Q"))
    case 5 => Some(BindReset(OpenTimings, Keybind(KeyT, true, false, false), "T"))
    case 6 => Some(BindReset(OpenBookmarks, Keybind(KeyB, true, false, false), "B"))
    case 90 => Some(GridReset(0, KeyQ, "Q"))
    case 91 => Some(GridReset(1, KeyW, "W"))
    case 92 => Some(GridReset(2, KeyE, "E"))
    case 93 => Some(GridReset(3, KeyR, "R"))
    case 94 => Some(GridReset(4, KeyT, "T"))
    case _ => None
  }

  /** The default grid keys, slot by slot: Q, W, E, R, T, each a different key. */
  lemma GridDefaults()
    ensures var ks := [ResetFor(90).value.key, ResetFor(91).value.key, ResetFor(92).value.key, ResetFor(93).value.key, ResetFor(94).value.key];
      && ks == [KeyQ, KeyW, KeyE, KeyR, KeyT]
      && forall i, j :: 0 <= i < j < 5 ==> ks[i] != ks[j]
  {
  }

  /** The keybind settings, the five grid keys (an array changed in place) and the text boxes of the window. */
  class KeybindsWindow {
    var binds: map<Bind, Keybind>
    var gridKeys: array<KeyCode>
    var bindText: map<Bind, string>
    var gridText: seq<string>

    constructor (binds: map<Bind, Keybind>, gridKeys: array<KeyCode>, bindText: map<Bind, string>, gridText: seq<string>)
      ensures this.binds == binds && this.gridKeys == gridKeys && this.bindText == bindText && this.gridText == gridText
    {
      this.binds := binds;
      this.gridKeys := gridKeys;
      this.bindText := bindText;
      this.gridText := gridText;
    }

    /**
     * OnButtonClicked for the RESET buttons: the listed keybind and its box
     * text, or the listed grid key and its box text, are set to the default;
     * no other setting or text changes, and an unlisted id changes nothing.
     */
    method OnButtonClicked(id: int)
      requires gridKeys.Length == 5 && |gridText| == 5
      modifies this`binds, this`bindText, this`gridText, gridKeys
      ensures |gridText| == 5
      ensures ResetFor(id).None? ==>
        binds == old(binds) && bindText == old(bindText) && gridKeys[..] == old(gridKeys[..]) && gridText == old(gridText)
      ensures ResetFor(id).Some? && ResetFor(id).value.BindReset? ==>
        var r := ResetFor(id).value;
        binds == old(binds)[r.bind := r.to] && bindText == old(bindText)[r.bind := r.text]
        && gridKeys[..] == old(gridKeys[..]) && gridText == old(gridText)
      ensures ResetFor(id).Some? && ResetFor(id).value.GridReset? ==>
        var r := ResetFor(id).value;
        gridKeys[..] == old(gridKeys[..])[r.slot := r.key] && gridText == old(gridText)[r.slot := r.keyText]
        && binds == old(binds) && bindText == old(bindText)
    {
      match ResetFor(id)
      case None =>
      case Some(r) =>
        match r
        case BindReset(b, k, t) =>
          binds := binds[b := k];
          bindText := bindText[b := t];
        case GridReset(s, key, t) =>
          gridKeys[s] := key;
          gridText := gridText[s := t];
    }
  }

  /** The OpenDirectory RESET button (id 10) changes no setting and no text. */
  lemma OpenDirectoryResetDoesNothing()
    ensures ResetFor(10).None?
  {
  }
}
