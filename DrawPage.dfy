/** The ballot page (src/pages/Draw.tsx): the session restored from or written to browser
    storage, the draw and selection list loaded from the backend, the guarded claim of a slot
    and the notice its outcome produces, and which of the page's views is rendered. */
module DrawPage {
  import opened Seqs
  import opened Records
  import opened BallotGrid
  import opened SelectionStore
  import opened SlotButton

  /** Browser storage entries are keyed by this prefix followed by the ballot id. */
  const StorageKeyPrefix: string := "fairdraw_session_"

  function StorageKey(id: string): (key: string)
    ensures |key| == |StorageKeyPrefix| + |id| && key[..|StorageKeyPrefix|] == StorageKeyPrefix
    ensures key[|StorageKeyPrefix|..] == id
  {
    StorageKeyPrefix + id
  }

  /** Different ballots never share a storage entry. */
  lemma StorageKeyInjective(a: string, b: string)
    ensures StorageKey(a) == StorageKey(b) <==> a == b
  {
    if StorageKey(a) == StorageKey(b) {
      assert a == StorageKey(a)[|StorageKeyPrefix|..];
    }
  }

  /** The JSON object `{sessionId, name}` kept under a storage key. */
  datatype StoredSession = StoredSession(sessionId: string, name: string)

  /** The toast shown once an insert has answered. */
  datatype Notice = SlotTakenNotice | SelectionFailedNotice | SelectionRecordedNotice

  /** The outcome branches of `handleSlotSelect`. */
  function InsertNotice(outcome: InsertOutcome): (notice: Notice)
    ensures notice == SelectionRecordedNotice <==> outcome.Inserted?
    ensures notice == SlotTakenNotice <==> outcome == InsertFailed(UniqueViolation)
    ensures notice == SelectionFailedNotice <==> outcome.InsertFailed? && outcome.code != UniqueViolation
  {
    match outcome
    case Inserted => SelectionRecordedNotice
    case InsertFailed(code) => if code == UniqueViolation then SlotTakenNotice else SelectionFailedNotice
  }

  /** `userSelection`: the first selection carrying the session id. */
  function UserSelection(selections: seq<Selection>, sessionId: string): (found: Option<Selection>)
    ensures found.None? <==> forall i :: 0 <= i < |selections| ==> selections[i].participantSessionId != sessionId
    ensures forall i ::
      (0 <= i < |selections| && selections[i].participantSessionId == sessionId &&
       forall k :: 0 <= k < i ==> selections[k].participantSessionId != sessionId)
      ==> found == Some(selections[i])
  {
    if selections == [] then None
    else if selections[0].participantSessionId == sessionId then Some(selections[0])
    else UserSelection(selections[1..], sessionId)
  }

  /** The page's `userSelection` and the grid's `userHasSelected` agree: the title says
      "Waiting for Others" exactly when the grid locks every button. */
  lemma UserSelectionIffHasSelected(selections: seq<Selection>, sessionId: string)
    ensures UserSelection(selections, sessionId).Some? <==> UserHasSelected(selections, sessionId)
  {
  }

  /** What `find` returns is a selection of the list carrying the session id. */
  lemma {:induction false} UserSelectionIsOwn(selections: seq<Selection>, sessionId: string)
    requires UserSelection(selections, sessionId).Some?
    ensures UserSelection(selections, sessionId).value in selections
    ensures UserSelection(selections, sessionId).value.participantSessionId == sessionId
  {
    if selections[0].participantSessionId != sessionId {
      UserSelectionIsOwn(selections[1..], sessionId);
    }
  }

  /** With distinct slots, the slot of the session's selection shows as its own pick. */
  lemma WaitingShowsOwnPick(selections: seq<Selection>, sessionId: string, disabled: bool)
    requires DistinctSlots(selections)
    requires UserSelection(selections, sessionId).Some?
    ensures var slot := UserSelection(selections, sessionId).value.selectedSlot;
      SlotPropsFor(selections, sessionId, disabled, slot).isSelected
  {
    UserSelectionIsOwn(selections, sessionId);
    var own := UserSelection(selections, sessionId).value;
    var i :| 0 <= i < |selections| && selections[i] == own;
    assert forall k :: 0 <= k < i ==> selections[k].selectedSlot != own.selectedSlot;
    assert SelectionForSlot(selections, own.selectedSlot) == Some(own);
  }

  /** With distinct slots, the button of the session's selection shows "Your Pick" in the
      selected look. */
  lemma OwnPickShowsYourPick(selections: seq<Selection>, sessionId: string, disabled: bool)
    requires DistinctSlots(selections)
    requires UserSelection(selections, sessionId).Some?
    ensures var props := SlotPropsFor(selections, sessionId, disabled, UserSelection(selections, sessionId).value.selectedSlot);
      ButtonContent(props) == YourPick && StateLook(props) == SelectedLook
  {
    WaitingShowsOwnPick(selections, sessionId, disabled);
  }

  /** `isComplete`: at least as many selections as the draw has participants. */
  predicate IsComplete(selections: seq<Selection>, participantsCount: int) {
    |selections| >= participantsCount
  }

  /** The guard of `handleSlotSelect`: an id, a name and a session id (all non-empty) and no
      insert in flight. It looks at neither the slot nor any earlier pick. */
  predicate ClaimAllowed(id: string, participantName: string, sessionId: string, isSubmitting: bool) {
    id != "" && participantName != "" && sessionId != "" && !isSubmitting
  }

  /** The grid's `disabled` prop: no name yet, or an insert in flight. */
  predicate GridDisabled(participantName: string, isSubmitting: bool) {
    participantName == "" || isSubmitting
  }

  /** What the page renders below its header. */
  datatype View =
    | Spinner
    | NotFoundCard
    | ResultsCard
    | BallotCard(waiting: bool, gridDisabled: bool, submitting: bool)

  /** The render branches, in the order the page tests them. */
  function ViewOf(loading: bool, draw: Option<Draw>, selections: seq<Selection>, sessionId: string,
                  participantName: string, isSubmitting: bool): (view: View)
    ensures view == Spinner <==> loading
    ensures view == NotFoundCard <==> !loading && draw.None?
    ensures view == ResultsCard <==> !loading && draw.Some? && IsComplete(selections, draw.value.participantsCount)
    ensures view.BallotCard? ==>
      && (view.waiting <==> UserHasSelected(selections, sessionId))
      && (view.gridDisabled <==> GridDisabled(participantName, isSubmitting))
      && view.submitting == isSubmitting
  {
    if loading then Spinner
    else if draw.None? then NotFoundCard
    else if IsComplete(selections, draw.value.participantsCount) then ResultsCard
    else
      UserSelectionIffHasSelected(selections, sessionId);
      BallotCard(UserSelection(selections, sessionId).Some?, GridDisabled(participantName, isSubmitting),
                 isSubmitting)
  }

  /** A session that has picked, while others have not, sees "Waiting for Others" over a grid
      whose every button is disabled, whatever the page passes as `disabled`. */
  lemma LockedWhileWaiting(draw: Draw, selections: seq<Selection>, sessionId: string,
                           participantName: string, isSubmitting: bool, participantCount: int)
    requires UserHasSelected(selections, sessionId)
    requires !IsComplete(selections, draw.participantsCount)
    ensures ViewOf(false, Some(draw), selections, sessionId, participantName, isSubmitting).BallotCard?
    ensures ViewOf(false, Some(draw), selections, sessionId, participantName, isSubmitting).waiting
    ensures forall props ::
      props in Grid(selections, sessionId, GridDisabled(participantName, isSubmitting), participantCount) ==>
        props.disabled
  {
    UserHasSelectedDisablesGrid(selections, sessionId, GridDisabled(participantName, isSubmitting), participantCount);
  }

  /** The page state that Draw.tsx keeps in `useState` hooks, the route's ballot id, the
      browser storage it reads and writes, and whether it has navigated back home. */
  class Page {
    const id: string
    var draw: Option<Draw>
    var selections: seq<Selection>
    var loading: bool
    var sessionId: string
    var participantName: string
    var showNameDialog: bool
    var isSubmitting: bool
    var storage: map<string, StoredSession>
    var navigatedHome: bool

    /** The page stops loading only once it holds a draw. */
    predicate Valid()
      reads this
    {
      !loading ==> draw.Some?
    }

    /** The view for the current state. */
    function View(): (view: View)
      reads this
      ensures Valid() ==> view != NotFoundCard
    {
      ViewOf(loading, draw, selections, sessionId, participantName, isSubmitting)
    }

    /** The initial hook values, for the route's id (`""` when absent) and the browser's
        storage. */
    constructor (id: string, storage: map<string, StoredSession>)
      ensures Valid()
      ensures this.id == id && this.storage == storage
      ensures draw.None? && selections == [] && loading
      ensures sessionId == "" && participantName == "" && !showNameDialog && !isSubmitting && !navigatedHome
    {
      this.id := id;
      this.storage := storage;
      draw := None;
      selections := [];
      loading := true;
      sessionId := "";
      participantName := "";
      showNameDialog := false;
      isSubmitting := false;
      navigatedHome := false;
    }

    /** The session effect: restore the stored session and name for this ballot, or take a
        fresh session id and open the name dialog. `freshSessionId` is what
        `generateSessionId` returned. */
    method InitSession(freshSessionId: string)
      modifies this`sessionId, this`participantName, this`showNameDialog
      ensures id == "" ==>
        && sessionId == old(sessionId)
        && participantName == old(participantName)
        && showNameDialog == old(showNameDialog)
      ensures id != "" && StorageKey(id) in storage ==>
        && sessionId == storage[StorageKey(id)].sessionId
        && participantName == storage[StorageKey(id)].name
        && showNameDialog == old(showNameDialog)
      ensures id != "" && StorageKey(id) !in storage ==>
        sessionId == freshSessionId && participantName == old(participantName) && showNameDialog
    {
      if id == "" {
        return;
      }
      var key := StorageKey(id);
      if key in storage {
        var stored := storage[key];
        sessionId := stored.sessionId;
        participantName := stored.name;
      } else {
        sessionId := freshSessionId;
        showNameDialog := true;
      }
    }

    /** `fetchDraw` once the backend has answered: no row (or an error) sends the visitor home
        and leaves the page loading; a row is kept and ends loading. */
    method ReceiveDraw(found: Option<Draw>)
      requires Valid()
      modifies this`draw, this`loading, this`navigatedHome
      ensures Valid()
      ensures id != "" && found.Some? ==> draw == found && !loading && navigatedHome == old(navigatedHome)
      ensures id != "" && found.None? ==> navigatedHome && draw == old(draw) && loading == old(loading)
      ensures id == "" ==> draw == old(draw) && loading == old(loading) && navigatedHome == old(navigatedHome)
    {
      if id == "" {
        return;
      }
      if found.None? {
        navigatedHome := true;
        return;
      }
      draw := found;
      loading := false;
    }

    /** `fetchSelections` once the backend has answered, on mount and on every change
        notification: the list is replaced wholesale, by nothing when the query failed. */
    method ReceiveSelections(data: Option<seq<Selection>>)
      modifies this`selections
      ensures data.Some? ==> selections == data.value
      ensures data.None? ==> selections == []
    {
      selections := if data.Some? then data.value else [];
    }

    /** `handleNameSubmit`, called by the dialog with an accepted, trimmed name. */
    method NameSubmit(name: string)
      modifies this`participantName, this`showNameDialog, this`storage
      ensures id == "" ==>
        && participantName == old(participantName)
        && showNameDialog == old(showNameDialog)
        && storage == old(storage)
      ensures id != "" ==>
        && participantName == name
        && !showNameDialog
        && storage == old(storage)[StorageKey(id) := StoredSession(sessionId, name)]
    {
      if id == "" {
        return;
      }
      participantName := name;
      showNameDialog := false;
      storage := storage[StorageKey(id) := StoredSession(sessionId, name)];
    }

    /** The first half of `handleSlotSelect`: when the guard lets the click through, mark an
        insert as in flight and return the row to insert. */
    method BeginClaim(slot: int) returns (request: Option<NewSelection>)
      modifies this`isSubmitting
      ensures !ClaimAllowed(id, participantName, sessionId, old(isSubmitting)) ==>
        request.None? && isSubmitting == old(isSubmitting)
      ensures ClaimAllowed(id, participantName, sessionId, old(isSubmitting)) ==>
        request == Some(NewSelection(id, slot, participantName, sessionId)) && isSubmitting
    {
      if !ClaimAllowed(id, participantName, sessionId, isSubmitting) {
        return None;
      }
      isSubmitting := true;
      request := Some(NewSelection(id, slot, participantName, sessionId));
    }

    /** The second half of `handleSlotSelect`: the insert has answered; clear the in-flight flag
        whatever the outcome and pick the notice. */
    method FinishClaim(outcome: InsertOutcome) returns (notice: Notice)
      modifies this`isSubmitting
      ensures !isSubmitting
      ensures notice == InsertNotice(outcome)
    {
      isSubmitting := false;
      notice := InsertNotice(outcome);
    }
  }

  /** The identity stored by the name submit is read back on the next visit to the same ballot:
      a fresh page for the same id restores the session id and the name and keeps the name
      dialog closed. */
  method ReturningVisitorRestored(page: Page, name: string, freshSessionId: string) returns (next: Page)
    requires page.id != ""
    modifies page`participantName, page`showNameDialog, page`storage
    ensures fresh(next)
    ensures next.id == page.id
    ensures next.sessionId == old(page.sessionId) && next.participantName == name && !next.showNameDialog
  {
    page.NameSubmit(name);
    next := new Page(page.id, page.storage);
    next.InitSession(freshSessionId);
  }

  /** A second click while an insert is in flight is ignored: only the first claim is sent. */
  method DoubleClickIgnored(page: Page, firstSlot: int, secondSlot: int)
    returns (first: Option<NewSelection>, second: Option<NewSelection>)
    requires ClaimAllowed(page.id, page.participantName, page.sessionId, page.isSubmitting)
    modifies page`isSubmitting
    ensures first == Some(NewSelection(page.id, firstSlot, page.participantName, page.sessionId))
    ensures second.None? && page.isSubmitting
  {
    first := page.BeginClaim(firstSlot);
    second := page.BeginClaim(secondSlot);
  }

  /** The guard does not consult the selection list: a session whose pick is already recorded
      can still send a second claim once no insert is in flight, and the table accepts it for
      a free slot, leaving the session with two rows on different slots. */
  method SecondPickReachesTheTable(page: Page, rows: seq<Selection>, slot: int, rowId: string)
    returns (after: seq<Selection>, earlier: nat)
    requires ClaimAllowed(page.id, page.participantName, page.sessionId, page.isSubmitting)
    requires exists i :: 0 <= i < |rows| && rows[i].drawId == page.id && rows[i].participantSessionId == page.sessionId
    requires !SlotTakenIn(rows, page.id, slot)
    modifies page`isSubmitting
    ensures |after| == |rows| + 1 && earlier < |rows|
    ensures after[earlier].participantSessionId == after[|rows|].participantSessionId == page.sessionId
    ensures after[earlier].drawId == after[|rows|].drawId == page.id
    ensures after[earlier].selectedSlot != after[|rows|].selectedSlot
  {
    var request := page.BeginClaim(slot);
    var inserted := StoreInsert(rows, request.value, rowId, None);
    after := inserted.1;
    earlier :| 0 <= earlier < |rows| && rows[earlier].drawId == page.id && rows[earlier].participantSessionId == page.sessionId;
  }
}
