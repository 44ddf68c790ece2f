/** The rows the draw page reads from the backend. */
module Records {
  import opened Seqs

  /** One claimed slot: a row of the `selections` table. */
  datatype Selection = Selection(
    id: string,
    drawId: string,
    selectedSlot: int,
    participantName: string,
    participantSessionId: string)

  /** A ballot: a row of the `draws` table. `shuffleMap` maps `slot_<n>` to a position. */
  datatype Draw = Draw(
    id: string,
    title: Option<string>,
    status: string,
    shuffleMap: map<string, int>,
    participantsCount: int)

  /** No two selections of the list are on the same slot (SelectionStore.FetchDistinctSlots
      derives this for the rows of one draw from the table's unique constraint). */
  predicate DistinctSlots(selections: seq<Selection>) {
    forall i, j :: 0 <= i < j < |selections| ==> selections[i].selectedSlot != selections[j].selectedSlot
  }
}
