/** The hosted `selections` table as the draw page sees it: an insert that either records the
    row, fails with the unique-violation code `23505` because the (draw, slot) pair is already
    taken, or fails with some other error; and a fetch of one draw's rows. The backend itself is
    not part of the source; this is the contract the page relies on. */
module SelectionStore {
  import opened Seqs
  import opened Records
  import opened BallotGrid

  /** PostgreSQL's unique_violation code, which the page tests for. */
  const UniqueViolation: string := "23505"

  /** The payload of `.insert({...})`. */
  datatype NewSelection = NewSelection(
    drawId: string,
    selectedSlot: int,
    participantName: string,
    participantSessionId: string)

  /** What the insert reports: no error, or an error carrying a code. */
  datatype InsertOutcome = Inserted | InsertFailed(code: string)

  /** The unique constraint: no two rows share a draw and a slot. */
  ghost predicate SlotsUnique(rows: seq<Selection>) {
    forall i, j :: 0 <= i < j < |rows| ==>
      rows[i].drawId != rows[j].drawId || rows[i].selectedSlot != rows[j].selectedSlot
  }

  predicate SlotTakenIn(rows: seq<Selection>, drawId: string, slot: int) {
    exists i :: 0 <= i < |rows| && rows[i].drawId == drawId && rows[i].selectedSlot == slot
  }

  /** One insert. `failure` stands for any error the backend may report before the constraint is
      checked (network, permissions); `rowId` is the id the table assigns. */
  function StoreInsert(rows: seq<Selection>, request: NewSelection, rowId: string, failure: Option<string>)
    : (result: (InsertOutcome, seq<Selection>))
    ensures result.0.Inserted? ==> result.1 == rows + [Selection(rowId, request.drawId,
      request.selectedSlot, request.participantName, request.participantSessionId)]
    ensures result.0.InsertFailed? ==> result.1 == rows
    ensures failure.None? ==>
      (result.0 == InsertFailed(UniqueViolation) <==> SlotTakenIn(rows, request.drawId, request.selectedSlot))
    ensures SlotsUnique(rows) ==> SlotsUnique(result.1)
  {
    if failure.Some? then (InsertFailed(failure.value), rows)
    else if SlotTakenIn(rows, request.drawId, request.selectedSlot) then (InsertFailed(UniqueViolation), rows)
    else
      (Inserted, rows + [Selection(rowId, request.drawId, request.selectedSlot,
                                   request.participantName, request.participantSessionId)])
  }

  /** `.select('*').eq('draw_id', id)`: the rows of one draw. The query asks for no order, so
      only which rows come back is fixed; this definition lists them in table order, and the
      lemmas below that read a fetched list accept the rows in any order. */
  function Fetch(rows: seq<Selection>, drawId: string): (result: seq<Selection>)
    ensures forall s :: s in result <==> s in rows && s.drawId == drawId
  {
    if rows == [] then []
    else if rows[0].drawId == drawId then [rows[0]] + Fetch(rows[1..], drawId)
    else Fetch(rows[1..], drawId)
  }

  /** A claim that lost the race is refused with `23505`, and after the re-fetch, whatever the
      order of the fetched rows, the grid shows the slot as no longer available. */
  lemma LostRaceShowsSlotTaken(rows: seq<Selection>, request: NewSelection, rowId: string,
                               fetched: seq<Selection>, currentSessionId: string, disabled: bool)
    requires SlotTakenIn(rows, request.drawId, request.selectedSlot)
    requires forall s :: s in fetched <==> s in Fetch(rows, request.drawId)
    ensures StoreInsert(rows, request, rowId, None) == (InsertFailed(UniqueViolation), rows)
    ensures var props := SlotPropsFor(fetched, currentSessionId, disabled, request.selectedSlot);
      props.isTaken || props.isSelected
  {
    var i :| 0 <= i < |rows| && rows[i].drawId == request.drawId && rows[i].selectedSlot == request.selectedSlot;
    assert rows[i] in Fetch(rows, request.drawId);
    assert rows[i] in fetched;
    SlotState(fetched, currentSessionId, disabled, request.selectedSlot);
  }

  /** A claim that went through shows, after the re-fetch and whatever the order of the fetched
      rows, as the claimant's own pick, and locks the claimant's whole grid. */
  lemma WonClaimLocksGrid(rows: seq<Selection>, request: NewSelection, rowId: string,
                          fetched: seq<Selection>, disabled: bool, participantCount: int)
    requires !SlotTakenIn(rows, request.drawId, request.selectedSlot)
    requires forall s :: s in fetched <==> s in Fetch(StoreInsert(rows, request, rowId, None).1, request.drawId)
    ensures StoreInsert(rows, request, rowId, None).0 == Inserted
    ensures && SlotPropsFor(fetched, request.participantSessionId, disabled, request.selectedSlot).isSelected
            && UserHasSelected(fetched, request.participantSessionId)
            && forall props :: props in Grid(fetched, request.participantSessionId, disabled, participantCount) ==>
                 props.disabled
  {
    var row := Selection(rowId, request.drawId, request.selectedSlot, request.participantName,
                         request.participantSessionId);
    var after := rows + [row];
    assert StoreInsert(rows, request, rowId, None).1 == after;
    assert row in Fetch(after, request.drawId);
    assert row in fetched;
    forall s | s in fetched && s.selectedSlot == request.selectedSlot
      ensures s == row
    {
      assert s in after && s.drawId == request.drawId;
      assert s !in rows;
    }
    var found := SelectionForSlot(fetched, request.selectedSlot);
    SelectionForSlotIsOnSlot(fetched, request.selectedSlot);
    assert found == Some(row);
    var k :| 0 <= k < |fetched| && fetched[k] == row;
    assert UserHasSelected(fetched, request.participantSessionId);
    UserHasSelectedDisablesGrid(fetched, request.participantSessionId, disabled, participantCount);
  }

  /** Fetching after an insert for the draw gives the rows fetched before plus the new one. */
  lemma {:induction false} FetchAppend(rows: seq<Selection>, row: Selection, drawId: string)
    requires row.drawId == drawId
    ensures multiset(Fetch(rows + [row], drawId)) == multiset(Fetch(rows, drawId)) + multiset{row}
  {
    if rows == [] {
      assert [row][1..] == [];
    } else {
      assert (rows + [row])[1..] == rows[1..] + [row];
      FetchAppend(rows[1..], row, drawId);
    }
  }

  /** The unique constraint on (draw, slot) means the rows fetched for one draw are on distinct
      slots. */
  lemma {:induction false} FetchDistinctSlots(rows: seq<Selection>, drawId: string)
    requires SlotsUnique(rows)
    ensures DistinctSlots(Fetch(rows, drawId))
  {
    if rows != [] {
      var tail := rows[1..];
      assert SlotsUnique(tail) by {
        forall i, j | 0 <= i < j < |tail|
          ensures tail[i].drawId != tail[j].drawId || tail[i].selectedSlot != tail[j].selectedSlot
        {
          assert tail[i] == rows[i + 1] && tail[j] == rows[j + 1];
        }
      }
      FetchDistinctSlots(tail, drawId);
      if rows[0].drawId == drawId {
        var rest := Fetch(tail, drawId);
        var fetched := [rows[0]] + rest;
        forall k | 0 <= k < |rest|
          ensures rest[k].selectedSlot != rows[0].selectedSlot
        {
          assert rest[k] in rest;
          var m :| 0 <= m < |tail| && tail[m] == rest[k];
          assert rows[m + 1] == rest[k];
        }
        forall i, j | 0 <= i < j < |fetched|
          ensures fetched[i].selectedSlot != fetched[j].selectedSlot
        {
          assert fetched[j] == rest[j - 1];
          if i > 0 {
            assert fetched[i] == rest[i - 1];
          }
        }
        assert Fetch(rows, drawId) == fetched;
      } else {
        assert Fetch(rows, drawId) == Fetch(tail, drawId);
      }
    }
  }
}
