// The option picker button (GuiButtonList): each click moves its setting
// to the next of the setting's allowed values, wrapping around, and the
// button shows the value in upper case.

module OptionPicker {
  import opened Common
  import opened Text

  /** ListSetting: the chosen value and the allowed values. Clicks overwrite `current`. */
  class ListSetting {
    var current: string
    var possible: seq<string>

    constructor (current: string, possible: seq<string>)
      ensures this.current == current && this.possible == possible
    {
      this.current := current;
      this.possible := possible;
    }
  }

  /** Array.IndexOf: the first index holding x, or -1. */
  function IndexOf(s: seq<string>, x: string): (k: int)
    ensures -1 <= k < |s|
    ensures k >= 0 ==> s[k] == x && forall j :: 0 <= j < k ==> s[j] != x
    ensures k < 0 <==> x !in s
  {
    if s == [] then -1
    else if s[0] == x then 0
    else
      var k := IndexOf(s[1..], x);
      if k < 0 then -1 else k + 1
  }

  /**
   * The value a click moves to: the one after the current value's first
   * position, wrapping around; a value that is not allowed counts as the
   * last position. With no allowed values the modulo by zero throws (None).
   */
  function NextValue(possible: seq<string>, current: string): (r: Option<string>)
    ensures r.None? <==> possible == []
    ensures r.Some? ==> r.value in possible
    ensures r.Some? && current !in possible ==> r.value == possible[0]
  {
    if possible == [] then None
    else
      var i := IndexOf(possible, current);
      var index := if i >= 0 then i else |possible| - 1;
      Some(possible[(index + 1) % |possible|])
  }

  /** In a list without repeats, a click moves from position i to position i + 1, wrapping around. */
  lemma NextOfPosition(possible: seq<string>, i: int)
    requires Distinct(possible) && 0 <= i < |possible|
    ensures NextValue(possible, possible[i]) == Some(possible[(i + 1) % |possible|])
  {
    assert possible[i] in possible;
    var k := IndexOf(possible, possible[i]);
    assert possible[k] == possible[i];
  }

  /** The value after k clicks. */
  function Clicked(possible: seq<string>, v: string, k: nat): string
    requires possible != []
    decreases k
  {
    if k == 0 then v else Clicked(possible, NextValue(possible, v).value, k - 1)
  }

  /** Moving one position and then k - 1 more is moving k positions, wrapping around. */
  lemma StepMod(i: int, k: nat, n: int)
    requires 0 <= i < n && k > 0
    ensures ((i + 1) % n + (k - 1)) % n == (i + k) % n
  {
    if i + 1 == n {
      ModUnique(i + 1, n, 1, 0);
      var a := k - 1;
      ModUnique(a + n, n, a / n + 1, a % n);
    } else {
      ModUnique(i + 1, n, 0, i + 1);
    }
  }

  /** One click from position i leaves k - 1 clicks from the next position. */
  lemma ClickStep(possible: seq<string>, i: int, k: nat)
    requires Distinct(possible) && 0 <= i < |possible| && k > 0
    ensures Clicked(possible, possible[i], k) == Clicked(possible, possible[(i + 1) % |possible|], k - 1)
  {
    NextOfPosition(possible, i);
  }

  /** k clicks from position i land on position i + k, wrapping around. */
  lemma {:induction false} ClickedFrom(possible: seq<string>, i: int, k: nat)
    requires Distinct(possible) && 0 <= i < |possible|
    ensures Clicked(possible, possible[i], k) == possible[(i + k) % |possible|]
    decreases k
  {
    var n := |possible|;
    if k == 0 {
      ModUnique(i, n, 0, i);
    } else {
      var j := (i + 1) % n;
      assert Clicked(possible, possible[i], k) == Clicked(possible, possible[j], k - 1) by { ClickStep(possible, i, k); }
      assert Clicked(possible, possible[j], k - 1) == possible[(j + (k - 1)) % n] by { ClickedFrom(possible, j, k - 1); }
      assert (j + (k - 1)) % n == (i + k) % n by { StepMod(i, k, n); }
    }
  }

  /** In a list without repeats, as many clicks as there are values bring an allowed value back. */
  lemma FullCycle(possible: seq<string>, current: string)
    requires Distinct(possible) && current in possible
    ensures Clicked(possible, current, |possible|) == current
  {
    var n := |possible|;
    var i :| 0 <= i < n && possible[i] == current;
    assert (i + n) % n == i by { ModUnique(i + n, n, 1, i); }
    ClickedFrom(possible, i, n);
  }

  class ButtonList {
    var setting: ListSetting
    var text: string

    /** The button starts out showing its setting's value in upper case. */
    constructor (setting: ListSetting)
      ensures this.setting == setting && text == ToUpper(setting.current)
    {
      this.setting := setting;
      text := ToUpper(setting.current);
    }

    /**
     * OnMouseClick: the setting moves to the next allowed value and the
     * button shows it in upper case. With no allowed values the click
     * throws (ok is false) before anything changes.
     */
    method OnMouseClick() returns (ok: bool)
      modifies setting`current, this`text
      ensures ok <==> setting.possible != []
      ensures ok ==> setting.current == NextValue(setting.possible, old(setting.current)).value && setting.current in setting.possible
      ensures ok ==> text == ToUpper(setting.current)
      ensures !ok ==> setting.current == old(setting.current) && text == old(text)
    {
      var possible := setting.possible;
      if |possible| == 0 {
        return false;
      }
      var index := IndexOf(possible, setting.current);
      index := if index >= 0 then index else |possible| - 1;
      setting.current := possible[(index + 1) % |possible|];
      text := ToUpper(setting.current);
      ok := true;
    }
  }
}
