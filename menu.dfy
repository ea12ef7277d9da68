// The map tabs of the main menu (GuiWindowMenu): five slots show a window
// of the open maps starting at mapOffset, two arrows scroll the window, and
// each slot has an open button (ids 80-84) and a close button (ids 90-94).

module MapMenu {
  import opened Common

  /** The number of map slots on the menu. */
  const Slots: int := 5

  /** What the menu knows about an open map: its file name and whether it is saved. */
  datatype MapEntry = MapEntry(fileName: string, saved: bool)

  /** What a click asks of the map list: nothing, or to open or close the map at an index. */
  datatype MapRequest = NoRequest | OpenMap(index: int) | CloseMap(index: int)

  /** A slot's label before trimming: the file name, marked "[!] " when the map has unsaved changes. */
  function SlotLabel(m: MapEntry): string
  {
    (if !m.saved then "[!] " else "") + m.fileName
  }

  /** The label ends with the file name, and is four characters longer exactly when the map is unsaved. */
  lemma SlotLabelMarksUnsaved(m: MapEntry)
    ensures var l := SlotLabel(m);
      |l| >= |m.fileName| && l[|l| - |m.fileName|..] == m.fileName
      && (|l| == |m.fileName| + 4 <==> !m.saved)
      && (!m.saved ==> l[..4] == "[!] ")
  {
  }

  /** The largest offset the clamp allows for a list of count maps. */
  function MaxOffset(count: int): (r: int)
    ensures r >= 0
    ensures count > Slots ==> r + Slots == count
  {
    MaxInt(0, count - Slots)
  }

  /** The clamp of AssembleMapList: with fewer maps than slots the upper bound is negative and 0 wins. */
  function ClampedOffset(offset: int, count: int): (r: int)
    ensures 0 <= r <= MaxOffset(count)
    ensures 0 <= offset <= MaxOffset(count) ==> r == offset
  {
    ClampInt(offset, 0, count - Slots)
  }

  /** For every map there is an allowed offset whose slots show it. */
  function OffsetShowing(count: int, m: int): (o: int)
    requires 0 <= m < count
    ensures 0 <= o <= MaxOffset(count) && ClampedOffset(o, count) == o
    ensures o <= m < o + Slots
  {
    MinInt(m, MaxOffset(count))
  }

  /** The offset after one ScrollMaps step: up while a map lies past the last slot, down while one lies before the first. */
  function Scrolled(offset: int, up: bool, count: int): int
  {
    if up && offset < count - Slots then offset + 1
    else if !up && offset > 0 then offset - 1
    else offset
  }

  /** Within the allowed range a scroll moves by exactly one slot and stays in range; at an end it does nothing. */
  lemma ScrollStepsByOne(offset: int, up: bool, count: int)
    requires 0 <= offset <= MaxOffset(count)
    ensures var o := ClampedOffset(Scrolled(offset, up, count), count);
      0 <= o <= MaxOffset(count)
      && (up ==> o == if offset < MaxOffset(count) then offset + 1 else offset)
      && (!up ==> o == if offset > 0 then offset - 1 else offset)
  {
  }

  /** Scrolling up and then down comes back to the same offset unless the first scroll hit the end. */
  lemma ScrollUpDown(offset: int, count: int)
    requires 0 <= offset < MaxOffset(count)
    ensures Scrolled(Scrolled(offset, true, count), false, count) == offset
  {
  }

  /**
   * The map a slot button targets: open buttons 80-84 and close buttons
   * 90-94 name slot id % 80 or id % 90 shifted by the offset; an index
   * outside the list, or any other id, asks for nothing.
   */
  function RequestFor(id: int, offset: int, count: int): (r: MapRequest)
    ensures r.OpenMap? <==> 80 <= id <= 84 && 0 <= id - 80 + offset < count
    ensures r.CloseMap? <==> 90 <= id <= 94 && 0 <= id - 90 + offset < count
    ensures r.OpenMap? ==> r.index == id - 80 + offset
    ensures r.CloseMap? ==> r.index == id - 90 + offset
  {
    if 80 <= id <= 84 then
      var k := id % 80 + offset;
      if 0 <= k < count then OpenMap(k) else NoRequest
    else if 90 <= id <= 94 then
      var k := id % 90 + offset;
      if 0 <= k < count then CloseMap(k) else NoRequest
    else NoRequest
  }

  /** The menu's paging state: the offset, the arrow and slot visibility, the slot texts and the cache of the last texts. */
  class Menu {
    var mapOffset: int
    var navLeftVisible: bool
    var navRightVisible: bool
    var slotVisible: seq<bool>
    var slotText: seq<string>
    var prevTexts: array<Option<string>>

    predicate Valid()
      reads this
    {
      |slotVisible| == Slots && |slotText| == Slots && prevTexts.Length == 8
    }

    /**
     * The menu shows maps from mapOffset on: the offset is in range, an
     * arrow shows iff a map lies hidden on its side, slot i shows iff map
     * i + mapOffset exists, and a shown slot holds that map's trimmed label,
     * which is also cached.
     */
    predicate Assembled(maps: seq<MapEntry>, trim: string -> string)
      reads this, prevTexts
    {
      Valid()
      && 0 <= mapOffset <= MaxOffset(|maps|)
      && (navLeftVisible <==> mapOffset > 0)
      && (navRightVisible <==> mapOffset + Slots < |maps|)
      && (forall i :: 0 <= i < Slots ==> (slotVisible[i] <==> i + mapOffset < |maps|))
      && (forall i :: 0 <= i < Slots && slotVisible[i] ==>
            slotText[i] == trim(SlotLabel(maps[i + mapOffset])) && prevTexts[i] == Some(slotText[i]))
    }

    constructor ()
      ensures Valid() && mapOffset == 0 && fresh(prevTexts)
    {
      mapOffset := 0;
      navLeftVisible, navRightVisible := false, false;
      slotVisible := [false, false, false, false, false];
      slotText := ["", "", "", "", ""];
      prevTexts := new Option<string>[8](_ => None);
    }

    /**
     * The loop of AssembleMapList: slot i shows iff map i + mapOffset
     * exists, and then holds that map's trimmed label, also cached; a hidden
     * slot keeps its text and cache.
     */
    method LaySlots(maps: seq<MapEntry>, trim: string -> string)
      requires Valid() && 0 <= mapOffset
      modifies this`slotVisible, this`slotText, prevTexts
      ensures Valid()
      ensures forall i :: 0 <= i < Slots ==> (slotVisible[i] <==> i + mapOffset < |maps|)
      ensures forall i :: 0 <= i < Slots && slotVisible[i] ==>
        slotText[i] == trim(SlotLabel(maps[i + mapOffset])) && prevTexts[i] == Some(slotText[i])
      ensures forall i :: 0 <= i < Slots && !slotVisible[i] ==> slotText[i] == old(slotText[i]) && prevTexts[i] == old(prevTexts[i])
      ensures forall i :: Slots <= i < 8 ==> prevTexts[i] == old(prevTexts[i])
    {
      var i := 0;
      while i < Slots
        invariant 0 <= i <= Slots
        invariant Valid()
        invariant forall j :: 0 <= j < i ==> (slotVisible[j] <==> j + mapOffset < |maps|)
        invariant forall j :: 0 <= j < i && slotVisible[j] ==>
          slotText[j] == trim(SlotLabel(maps[j + mapOffset])) && prevTexts[j] == Some(slotText[j])
        invariant forall j :: 0 <= j < Slots && !(j < i && slotVisible[j]) ==>
          slotText[j] == old(slotText[j]) && prevTexts[j] == old(prevTexts[j])
        invariant forall j :: Slots <= j < 8 ==> prevTexts[j] == old(prevTexts[j])
      {
        var visible := i + mapOffset < |maps|;
        slotVisible := slotVisible[i := visible];
        if visible {
          var text := trim(SlotLabel(maps[i + mapOffset]));
          slotText := slotText[i := text];
          prevTexts[i] := Some(text);
        }
        i := i + 1;
      }
    }

    /**
     * AssembleMapList: clamps the offset, shows each arrow iff a map lies
     * hidden on its side, and lays out the slots.
     */
    method AssembleMapList(maps: seq<MapEntry>, trim: string -> string)
      requires Valid()
      modifies this, prevTexts
      ensures mapOffset == ClampedOffset(old(mapOffset), |maps|)
      ensures Assembled(maps, trim)
      ensures forall i :: 0 <= i < Slots && !slotVisible[i] ==> slotText[i] == old(slotText[i]) && prevTexts[i] == old(prevTexts[i])
      ensures forall i :: Slots <= i < 8 ==> prevTexts[i] == old(prevTexts[i])
      ensures prevTexts == old(prevTexts)
    {
      mapOffset := ClampInt(mapOffset, 0, |maps| - Slots);
      navLeftVisible := mapOffset > 0;
      navRightVisible := mapOffset < |maps| - Slots;
      LaySlots(maps, trim);
    }

    /** ScrollMaps: one step up or down, as far as the list allows, then the slots are laid out again. */
    method ScrollMaps(up: bool, maps: seq<MapEntry>, trim: string -> string)
      requires Valid()
      modifies this, prevTexts
      ensures mapOffset == ClampedOffset(Scrolled(old(mapOffset), up, |maps|), |maps|)
      ensures Assembled(maps, trim)
    {
      if up && mapOffset < |maps| - Slots {
        mapOffset := mapOffset + 1;
      } else if !up && mapOffset > 0 {
        mapOffset := mapOffset - 1;
      }
      AssembleMapList(maps, trim);
    }

    /**
     * OnButtonClicked for the map tabs: the arrows (6 left, 7 right) scroll
     * by one and lay the slots out again when a map lies hidden on that
     * side; an open button asks to open the map it points at and leaves the
     * menu as it is; a close button asks to close the map it points at and
     * then lays the menu out again over `closed`, the map list as it stands
     * once the close request has run (the map may have stayed open).
     */
    method OnButtonClicked(id: int, maps: seq<MapEntry>, closed: seq<MapEntry>, trim: string -> string) returns (r: MapRequest)
      requires Valid()
      modifies this, prevTexts
      ensures Valid()
      ensures r == RequestFor(id, old(mapOffset), |maps|)
      ensures id == 6 && old(mapOffset) > 0 ==> mapOffset == ClampedOffset(old(mapOffset) - 1, |maps|) && Assembled(maps, trim)
      ensures id == 7 && old(mapOffset) < |maps| - Slots ==> mapOffset == ClampedOffset(old(mapOffset) + 1, |maps|) && Assembled(maps, trim)
      ensures r.CloseMap? ==> mapOffset == ClampedOffset(old(mapOffset), |closed|) && Assembled(closed, trim)
      ensures !(id == 6 && old(mapOffset) > 0) && !(id == 7 && old(mapOffset) < |maps| - Slots) && !r.CloseMap? ==>
        unchanged(this) && unchanged(prevTexts)
    {
      r := RequestFor(id, mapOffset, |maps|);
      if id == 6 && mapOffset > 0 {
        mapOffset := mapOffset - 1;
        AssembleMapList(maps, trim);
      } else if id == 7 && mapOffset < |maps| - Slots {
        mapOffset := mapOffset + 1;
        AssembleMapList(maps, trim);
      } else if r.CloseMap? {
        AssembleMapList(closed, trim);
      }
    }
  }

  /**
   * Closing a map from the last page pulls the window back: with six maps
   * shown from offset 1, closing one leaves five, so the offset returns to 0
   * and the left arrow hides.
   */
  lemma CloseReassemblesPage(menu: Menu, closed: seq<MapEntry>, trim: string -> string)
    requires menu.Assembled(closed, trim) && |closed| == Slots
    ensures menu.mapOffset == 0 && !menu.navLeftVisible && !menu.navRightVisible
  {
  }

  /** An open button shown by an assembled menu opens the very map whose label its slot shows. */
  lemma OpenTargetsShownMap(menu: Menu, maps: seq<MapEntry>, trim: string -> string, id: int)
    requires menu.Assembled(maps, trim)
    requires RequestFor(id, menu.mapOffset, |maps|).OpenMap?
    ensures menu.slotVisible[id - 80]
    ensures menu.slotText[id - 80] == trim(SlotLabel(maps[RequestFor(id, menu.mapOffset, |maps|).index]))
  {
  }

  /** A close button targets a map exactly when its slot is shown. */
  lemma CloseOnlyShownSlots(menu: Menu, maps: seq<MapEntry>, trim: string -> string, slot: int)
    requires menu.Assembled(maps, trim) && 0 <= slot < Slots
    ensures RequestFor(90 + slot, menu.mapOffset, |maps|).CloseMap? <==> menu.slotVisible[slot]
  {
  }
}
