/** One slot button (src/components/SlotButton.tsx): when it can be clicked, which of the three
    looks it takes, whether it is dimmed, and what it shows. */
module SlotButton {
  import opened Seqs
  import opened Records
  import opened BallotGrid

  /** The three style sets of `getStateClasses`. */
  datatype Look = SelectedLook | TakenLook | AvailableLook

  /** What the button shows: a check and "Your Pick", the taker's name, or the slot number
      with "Available". */
  datatype Content = YourPick | TakenBy(name: Option<string>) | Available(slot: int)

  /** The button's `disabled` attribute. */
  predicate ButtonDisabled(props: SlotProps) {
    props.disabled || props.isTaken || props.isSelected
  }

  /** `getStateClasses`: selected beats taken, taken beats available. */
  function StateLook(props: SlotProps): (look: Look)
    ensures look == SelectedLook <==> props.isSelected
    ensures look == TakenLook <==> !props.isSelected && props.isTaken
    ensures look == AvailableLook <==> !props.isSelected && !props.isTaken
  {
    if props.isSelected then SelectedLook
    else if props.isTaken then TakenLook
    else AvailableLook
  }

  /** The extra `opacity-50` classes: only a disabled button that is neither picked nor taken. */
  predicate Dimmed(props: SlotProps) {
    props.disabled && !props.isSelected && !props.isTaken
  }

  /** The content branch, with the same precedence as the look. */
  function ButtonContent(props: SlotProps): (content: Content)
    ensures content == YourPick <==> props.isSelected
    ensures content.TakenBy? <==> !props.isSelected && props.isTaken
    ensures content.TakenBy? ==> content.name == props.takenBy
    ensures content.Available? <==> !props.isSelected && !props.isTaken
    ensures content.Available? ==> content.slot == props.slot
  {
    if props.isSelected then YourPick
    else if props.isTaken then TakenBy(props.takenBy)
    else Available(props.slot)
  }

  /** Look and content always agree on the state the button is in. */
  lemma LookMatchesContent(props: SlotProps)
    ensures StateLook(props) == SelectedLook <==> ButtonContent(props) == YourPick
    ensures StateLook(props) == TakenLook <==> ButtonContent(props).TakenBy?
    ensures StateLook(props) == AvailableLook <==> ButtonContent(props) == Available(props.slot)
  {
  }

  /** A button that can be clicked is an available, undimmed slot showing its own number;
      a dimmed button cannot be clicked. */
  lemma ClickableIsAvailable(props: SlotProps)
    ensures !ButtonDisabled(props) ==>
      StateLook(props) == AvailableLook && ButtonContent(props) == Available(props.slot) && !Dimmed(props)
    ensures Dimmed(props) ==> ButtonDisabled(props) && StateLook(props) == AvailableLook
  {
  }

  /** In the grid, slot i+1's button can be clicked exactly when the grid is enabled, the
      current session holds no selection, and no selection is on that slot. */
  lemma GridClickable(selections: seq<Selection>, currentSessionId: string, disabled: bool,
                      participantCount: int, i: nat)
    requires i < |Grid(selections, currentSessionId, disabled, participantCount)|
    ensures !ButtonDisabled(Grid(selections, currentSessionId, disabled, participantCount)[i]) <==>
      && !disabled
      && !UserHasSelected(selections, currentSessionId)
      && forall s :: s in selections ==> s.selectedSlot != i + 1
  {
    GridAt(selections, currentSessionId, disabled, participantCount);
    SlotState(selections, currentSessionId, disabled, i + 1);
  }

  /** A slot taken by another session shows the name on the first selection for that slot. */
  lemma TakenShowsTakerName(selections: seq<Selection>, currentSessionId: string, disabled: bool, slot: int)
    requires SlotPropsFor(selections, currentSessionId, disabled, slot).isTaken
    ensures ButtonContent(SlotPropsFor(selections, currentSessionId, disabled, slot)) ==
      TakenBy(Some(SelectionForSlot(selections, slot).value.participantName))
    ensures SelectionForSlot(selections, slot).value.selectedSlot == slot
    ensures SelectionForSlot(selections, slot).value.participantSessionId != currentSessionId
  {
    SelectionForSlotIsOnSlot(selections, slot);
  }
}
