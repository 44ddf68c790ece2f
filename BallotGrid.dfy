/** The slot grid (src/components/BallotGrid.tsx): which slots are shown, and for each one
    whether it is the current session's pick, taken by someone else, or available, derived
    afresh from the live selection list on every render. */
module BallotGrid {
  import opened Seqs
  import opened Records

  /** `Array.from({length: participant_count}, (_, i) => i + 1)`: a non-positive count gives
      no slots. */
  function Slots(participantCount: int): (slots: seq<int>)
    ensures |slots| == if participantCount <= 0 then 0 else participantCount
    ensures forall i :: 0 <= i < |slots| ==> slots[i] == i + 1
  {
    if participantCount <= 0 then [] else OneTo(participantCount)
  }

  /** The grid shows exactly the slots 1..count, each once, in ascending order. */
  lemma SlotsAreOneToCount(participantCount: int)
    ensures forall slot :: slot in Slots(participantCount) <==> 1 <= slot <= participantCount
    ensures forall i, j :: 0 <= i < j < |Slots(participantCount)| ==>
      Slots(participantCount)[i] < Slots(participantCount)[j]
  {
    var slots := Slots(participantCount);
    forall slot | 1 <= slot <= participantCount
      ensures slot in slots
    {
      assert slots[slot - 1] == slot;
    }
  }

  /** `getSelectionForSlot`: the first selection on the slot (`Array.prototype.find`). */
  function SelectionForSlot(selections: seq<Selection>, slot: int): (found: Option<Selection>)
    ensures found.None? <==> forall i :: 0 <= i < |selections| ==> selections[i].selectedSlot != slot
    ensures forall i ::
      (0 <= i < |selections| && selections[i].selectedSlot == slot &&
       forall k :: 0 <= k < i ==> selections[k].selectedSlot != slot)
      ==> found == Some(selections[i])
  {
    if selections == [] then None
    else if selections[0].selectedSlot == slot then Some(selections[0])
    else SelectionForSlot(selections[1..], slot)
  }

  /** What `find` returns is a selection of the list, on the slot asked for. */
  lemma {:induction false} SelectionForSlotIsOnSlot(selections: seq<Selection>, slot: int)
    requires SelectionForSlot(selections, slot).Some?
    ensures SelectionForSlot(selections, slot).value in selections
    ensures SelectionForSlot(selections, slot).value.selectedSlot == slot
  {
    if selections[0].selectedSlot != slot {
      SelectionForSlotIsOnSlot(selections[1..], slot);
    }
  }

  /** `userHasSelected`: some selection carries the current session id (`Array.prototype.some`). */
  predicate UserHasSelected(selections: seq<Selection>, currentSessionId: string) {
    exists i :: 0 <= i < |selections| && selections[i].participantSessionId == currentSessionId
  }

  /** The props the grid passes to one SlotButton. `takenBy` is None where the source passes
      `undefined`. */
  datatype SlotProps = SlotProps(
    slot: int,
    isSelected: bool,
    isTaken: bool,
    takenBy: Option<string>,
    disabled: bool)

  /** The per-slot derivation inside `slots.map`. */
  function SlotPropsFor(selections: seq<Selection>, currentSessionId: string, disabled: bool, slot: int)
    : (props: SlotProps)
    ensures props.slot == slot
    ensures props.disabled <==> disabled || UserHasSelected(selections, currentSessionId)
    ensures !(props.isSelected && props.isTaken)
  {
    var selection := SelectionForSlot(selections, slot);
    var isSelected := selection.Some? && selection.value.participantSessionId == currentSessionId;
    var isTaken := selection.Some? && !isSelected;
    SlotProps(
      slot,
      isSelected,
      isTaken,
      if selection.Some? then Some(selection.value.participantName) else None,
      disabled || UserHasSelected(selections, currentSessionId))
  }

  /** The props of every button the grid renders, slot by slot. */
  function Grid(selections: seq<Selection>, currentSessionId: string, disabled: bool, participantCount: int)
    : (grid: seq<SlotProps>)
    ensures |grid| == |Slots(participantCount)|
  {
    Map(Slots(participantCount), slot => SlotPropsFor(selections, currentSessionId, disabled, slot))
  }

  /** Button i of the grid carries the props of slot i + 1. */
  lemma GridAt(selections: seq<Selection>, currentSessionId: string, disabled: bool, participantCount: int)
    ensures var grid := Grid(selections, currentSessionId, disabled, participantCount);
      forall i :: 0 <= i < |grid| ==> grid[i] == SlotPropsFor(selections, currentSessionId, disabled, i + 1)
  {
    var slots := Slots(participantCount);
    var propsFor := slot => SlotPropsFor(selections, currentSessionId, disabled, slot);
    MapAt(slots, propsFor);
    assert Grid(selections, currentSessionId, disabled, participantCount) == Map(slots, propsFor);
    assert forall i :: 0 <= i < |slots| ==> slots[i] == i + 1;
  }

  /** Each slot is in exactly one of three states, read off the whole selection list:
      available when no selection is on it; the current session's pick when the first
      selection on it has the current session id; taken by someone else otherwise, showing
      that selection's participant name. */
  lemma SlotState(selections: seq<Selection>, currentSessionId: string, disabled: bool, slot: int)
    ensures var props := SlotPropsFor(selections, currentSessionId, disabled, slot);
      && (!props.isSelected && !props.isTaken <==>
           forall s :: s in selections ==> s.selectedSlot != slot)
      && (props.isSelected <==>
           exists i :: 0 <= i < |selections| && selections[i].selectedSlot == slot &&
             selections[i].participantSessionId == currentSessionId &&
             forall k :: 0 <= k < i ==> selections[k].selectedSlot != slot)
      && (props.isTaken <==>
           exists i :: 0 <= i < |selections| && selections[i].selectedSlot == slot &&
             selections[i].participantSessionId != currentSessionId &&
             forall k :: 0 <= k < i ==> selections[k].selectedSlot != slot)
      && (props.isTaken ==> props.takenBy.Some?)
  {
    var found := SelectionForSlot(selections, slot);
    if found.Some? {
      var i := FirstOnSlot(selections, slot);
      assert found == Some(selections[i]);
    }
  }

  /** The index of the first selection on a slot that has one. */
  lemma {:induction false} FirstOnSlot(selections: seq<Selection>, slot: int) returns (i: nat)
    requires SelectionForSlot(selections, slot).Some?
    ensures i < |selections| && selections[i].selectedSlot == slot
    ensures forall k :: 0 <= k < i ==> selections[k].selectedSlot != slot
  {
    if selections[0].selectedSlot == slot {
      i := 0;
    } else {
      var j := FirstOnSlot(selections[1..], slot);
      i := j + 1;
    }
  }

  /** Once the current session holds any selection, every button of the grid is disabled. */
  lemma UserHasSelectedDisablesGrid(selections: seq<Selection>, currentSessionId: string,
                                    disabled: bool, participantCount: int)
    requires UserHasSelected(selections, currentSessionId)
    ensures forall props :: props in Grid(selections, currentSessionId, disabled, participantCount) ==>
      props.disabled
  {
    GridAt(selections, currentSessionId, disabled, participantCount);
  }

  /** Three slots of six claimed by other sessions: slots 1, 3 and 5 show as taken, slots 2, 4
      and 6 as available, and no button is disabled. */
  lemma OddSlotsTakenByOthers(mine: string, a: Selection, b: Selection, c: Selection)
    requires a.selectedSlot == 1 && b.selectedSlot == 3 && c.selectedSlot == 5
    requires a.participantSessionId != mine && b.participantSessionId != mine && c.participantSessionId != mine
    ensures var grid := Grid([a, b, c], mine, false, 6);
      && |grid| == 6
      && grid[0].isTaken && grid[2].isTaken && grid[4].isTaken
      && (forall i :: 0 <= i < 6 ==> !grid[i].isSelected)
      && !grid[1].isTaken && !grid[3].isTaken && !grid[5].isTaken
      && (forall i :: 0 <= i < 6 ==> !grid[i].disabled)
  {
    var selections := [a, b, c];
    GridAt(selections, mine, false, 6);
    assert !UserHasSelected(selections, mine);
    forall slot | 1 <= slot <= 6 {
      OddSlotsFound(a, b, c, slot);
    }
  }

  lemma OddSlotsFound(a: Selection, b: Selection, c: Selection, slot: int)
    requires a.selectedSlot == 1 && b.selectedSlot == 3 && c.selectedSlot == 5
    ensures slot == 1 ==> SelectionForSlot([a, b, c], slot) == Some(a)
    ensures slot == 3 ==> SelectionForSlot([a, b, c], slot) == Some(b)
    ensures slot == 5 ==> SelectionForSlot([a, b, c], slot) == Some(c)
    ensures slot != 1 && slot != 3 && slot != 5 ==> SelectionForSlot([a, b, c], slot).None?
  {
    assert [a, b, c][1..] == [b, c];
    assert [b, c][1..] == [c];
    assert [c][1..] == [];
    var last := if slot == 5 then Some(c) else None;
    assert SelectionForSlot([c], slot) == last;
    var middle := if slot == 3 then Some(b) else last;
    assert SelectionForSlot([b, c], slot) == middle;
    assert SelectionForSlot([a, b, c], slot) == if slot == 1 then Some(a) else middle;
  }
}
