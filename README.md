# FairDraw core in Dafny

FairDraw runs a group ballot. Each ballot has a hidden shuffle map that sends every slot
(`slot_1` … `slot_6`) to a position. Participants join under a name and each claims one slot
on a shared grid. The backend's unique constraint on (ballot, slot) settles races. When
enough slots are claimed, the page reveals everyone's position, in order.

This project models that core and proves properties about it:

- `Seqs`: an `Option` type, sequence helpers, and permutation lemmas.
- `Decimal`: JavaScript's rendering of an integer as a decimal string, and its inverse. This is
  what makes `slot_<n>` keys and `<n>th` labels injective.
- `Records`: the `selections` and `draws` rows.
- `Shuffle` (`src/lib/shuffle.ts`):
  - the Fisher–Yates shuffle as an array method, proved against a recursive specification;
  - the shuffle-map builder as a method, proved to produce a bijection from slots to positions;
  - the position labels.
- `BallotGrid` and `SlotButton` (`src/components/BallotGrid.tsx`, `src/components/SlotButton.tsx`):
  - each slot's state (the current session's pick, taken by someone else, or available),
    derived from the live selection list;
  - when a button can be clicked, and what it shows.
- `ResultsDisplay` (`src/components/ResultsDisplay.tsx`):
  - the reveal, a stable sort by position, proved to be a sorted permutation of the selections;
  - on a full ballot, proved to list positions 1..n in order;
  - icons and the winner's row style.
- `NameEntryDialog` (`src/components/NameEntryDialog.tsx`):
  - JavaScript `trim`, lengths in UTF-16 code units, and the 2..50 name schema;
  - the dialog's submit handler, as a class.
- `SelectionStore`: the backend contract the page relies on. An insert that fails with
  `23505` when the slot is taken, and a fetch of one ballot's rows.
- `DrawPage` (`src/pages/Draw.tsx`): the page as a class whose methods are the page's
  effects and handlers:
  - session restore or creation, the draw and selection loads, the name submit, and the
    guarded claim split at its `await`;
  - the view each state renders.

Randomness is a parameter. `draws[i]` is the index `j` that `Math.floor(Math.random() * (i + 1))`
returned when the loop counter was `i`, so `draws[i] <= i`.

## Model

| member | source | states |
|---|---|---|
| Shuffle.ShuffleArray | src/lib/shuffle.ts:2-9 | returns a fresh array, leaves the input unchanged, holds the Fisher–Yates result for the given draws, and is a permutation of the input |
| Shuffle.Swap | src/lib/shuffle.ts:6 | the two entries trade places and every other entry is unchanged |
| Shuffle.FisherYatesPermutes | src/lib/shuffle.ts:2-9 | the shuffle is a permutation of its input for every valid sequence of draws |
| Shuffle.SwapSchedule | src/lib/shuffle.ts:4-5 | the k-th swap exchanges index n-1-k with an index no greater than it; there are n-1 swaps, from the last index down to index 1 |
| Shuffle.FisherYatesFollowsSchedule | src/lib/shuffle.ts:4-7 | the shuffle equals applying that swap schedule, in order, to a copy of the input |
| Shuffle.FisherYatesShortIsIdentity | src/lib/shuffle.ts:3-4 | an input of length 0 or 1 is returned as an unchanged copy |
| Shuffle.GenerateShuffleMap | src/lib/shuffle.ts:12-22 | the map has exactly the keys slot_1..slot_6 and the values 1..6; distinct slots get distinct positions; slot_k holds the k-th element of the shuffled list 1..6 |
| Shuffle.ShuffledPositionsFormBijection | src/lib/shuffle.ts:12-22 | storing a permutation of 1..6 under slot_1..slot_6 gives a map with exactly those keys, values 1..6, and distinct positions for distinct slots |
| Shuffle.SlotKeyInjective | src/lib/shuffle.ts:18 | different slot numbers give different `slot_<n>` keys |
| Shuffle.SlotKey | src/lib/shuffle.ts:18 | the key is `slot_` followed by the slot's JavaScript decimal rendering (the same template is read at src/components/ResultsDisplay.tsx:20) |
| Shuffle.SlotKeysMembership | src/lib/shuffle.ts:17-19 | `slot_<k>` is among the first n keys exactly when 1 <= k <= n |
| Shuffle.ShuffleMapInjective | src/lib/shuffle.ts:11-22 | in a shuffle map, two different slots in range map to different positions |
| Shuffle.PositionLabel | src/lib/shuffle.ts:25-35 | the label is the decimal number followed by st, nd or rd for 1, 2 or 3, and th otherwise |
| Shuffle.PositionLabelInjective | src/lib/shuffle.ts:25-35 | different positions get different labels |
| Shuffle.PositionLabelBeyondTable | src/lib/shuffle.ts:34 | outside the table the label is the naive `<n>th` (7th, 21th, 22th, 0th) |
| Decimal.DecimalRoundTrip | src/lib/shuffle.ts:18 | parsing the decimal rendering of a natural number gives the number back |
| Decimal.IntToStringInjective | src/lib/shuffle.ts:34 | two integers with the same JavaScript rendering are equal |
| BallotGrid.Slots | src/components/BallotGrid.tsx:19 | the slot list has `participant_count` entries (none for a count <= 0), and entry i is i+1 |
| BallotGrid.SlotsAreOneToCount | src/components/BallotGrid.tsx:19 | the grid shows exactly the slots 1..count, in strictly ascending order |
| BallotGrid.SelectionForSlot | src/components/BallotGrid.tsx:23-25 | none iff no selection is on the slot; otherwise the first selection on it |
| BallotGrid.SelectionForSlotIsOnSlot | src/components/BallotGrid.tsx:23-25 | a found selection belongs to the list and is on the requested slot |
| BallotGrid.UserHasSelected | src/components/BallotGrid.tsx:27 | some selection carries the current session id |
| BallotGrid.SlotPropsFor | src/components/BallotGrid.tsx:31-45 | a button's props carry its slot; `disabled` iff the page disabled the grid or the session has selected; never both selected and taken |
| BallotGrid.Grid | src/components/BallotGrid.tsx:31-47 | the grid renders one button per slot |
| BallotGrid.GridAt | src/components/BallotGrid.tsx:31-47 | the buttons are in slot order: the i-th carries the props of slot i+1 |
| BallotGrid.SlotState | src/components/BallotGrid.tsx:32-34 | available iff no selection is on the slot; the session's pick iff the first selection on it has the session id; taken iff it has another session id; a taken slot names its taker |
| BallotGrid.UserHasSelectedDisablesGrid | src/components/BallotGrid.tsx:27 | once the session holds any selection, every button is disabled |
| BallotGrid.OddSlotsTakenByOthers | src/components/BallotGrid.tsx:19-47 | with slots 1, 3 and 5 of six claimed by others, those show as taken, the rest as available, and none is disabled |
| SlotButton.StateLook | src/components/SlotButton.tsx:14-22 | the selected look iff the slot is the session's pick; the taken look iff it is taken and not selected; the available look iff neither (selected beats taken) |
| SlotButton.ButtonContent | src/components/SlotButton.tsx:37-52 | "Your Pick" iff the slot is selected; the taker's name (`takenBy`) iff taken and not selected; the slot's own number with "Available" iff neither |
| SlotButton.ButtonDisabled | src/components/SlotButton.tsx:27 | the button is disabled iff the grid disabled it, or the slot is taken, or it is the session's pick |
| SlotButton.Dimmed | src/components/SlotButton.tsx:34 | the dimmed style applies iff the button is disabled while neither selected nor taken |
| SlotButton.LookMatchesContent | src/components/SlotButton.tsx:14-52 | look and content agree: selected shows "Your Pick", taken shows the taker, available shows the slot |
| SlotButton.ClickableIsAvailable | src/components/SlotButton.tsx:27-34 | a clickable button is an available, undimmed slot; a dimmed button is disabled and available-looking |
| SlotButton.GridClickable | src/components/SlotButton.tsx:27 | in the grid, slot i+1 can be clicked iff the grid is enabled, the session holds no selection, and no selection is on that slot |
| SlotButton.TakenShowsTakerName | src/components/SlotButton.tsx:42-46 | a taken slot shows the name on the first selection for it, which belongs to another session |
| ResultsDisplay.AnnotateAt | src/components/ResultsDisplay.tsx:18-21 | each selection is paired, in place, with the position its `slot_<n>` key maps to |
| ResultsDisplay.Annotate | src/components/ResultsDisplay.tsx:18-21 | one annotated row per selection |
| ResultsDisplay.AnnotatedPositions | src/components/ResultsDisplay.tsx:18-21 | every annotated row carries the position its slot's key maps to |
| ResultsDisplay.Insert | src/components/ResultsDisplay.tsx:22 | insertion adds exactly one element to the multiset |
| ResultsDisplay.InsertKeepsSorted | src/components/ResultsDisplay.tsx:22 | inserting into a list sorted by position keeps it sorted |
| ResultsDisplay.SortByPosition | src/components/ResultsDisplay.tsx:22 | the sort returns a permutation of its input, in non-decreasing order of position |
| ResultsDisplay.SortedResults | src/components/ResultsDisplay.tsx:17-22 | the reveal is a permutation of the selections, sorted by position, each row carrying its slot's position from the map |
| ResultsDisplay.RevealStrictlyIncreasing | src/components/ResultsDisplay.tsx:17-22 | with a shuffle map and selections on distinct slots in range, positions strictly increase down the reveal |
| ResultsDisplay.FullRevealIsRanking | src/components/ResultsDisplay.tsx:17-22 | when all n slots are claimed, row i shows position i+1, and the first three rows are labelled 1st, 2nd and 3rd |
| ResultsDisplay.IconFor | src/components/ResultsDisplay.tsx:24-35 | the trophy iff position 1, the award iff position 2, the medal iff position 3, and no icon otherwise |
| ResultsDisplay.RowStyleFor | src/components/ResultsDisplay.tsx:37-42 | a row is highlighted iff its position is the trophy position, 1 |
| ResultsDisplay.WinnerRowIsFirst | src/components/ResultsDisplay.tsx:24-42 | in a full reveal only the first row is highlighted; trophy, award and medal go to rows 1, 2 and 3; later rows get no icon |
| ResultsDisplay.ThreeSlotExample | src/components/ResultsDisplay.tsx:17-22 | with slot_1→3, slot_2→1 and slot_3→2, the reveal lists slot 2, slot 3, then slot 1 |
| NameEntryDialog.IsJsWhitespace | src/components/NameEntryDialog.tsx:15 | the characters `trim` removes: ECMAScript WhiteSpace (tab, vertical tab, form feed, space, no-break space, the byte-order mark and the Unicode space separators) and LineTerminator (line feed, carriage return, U+2028, U+2029) |
| NameEntryDialog.TrimStart | src/components/NameEntryDialog.tsx:15 | the result is a suffix of the input and does not start with whitespace |
| NameEntryDialog.TrimStartDropsWhitespace | src/components/NameEntryDialog.tsx:15 | everything the leading trim drops is whitespace |
| NameEntryDialog.TrimEnd | src/components/NameEntryDialog.tsx:15 | the result is a prefix of the input and does not end with whitespace |
| NameEntryDialog.TrimEndDropsWhitespace | src/components/NameEntryDialog.tsx:15 | everything the trailing trim drops is whitespace |
| NameEntryDialog.Trim | src/components/NameEntryDialog.tsx:15 | the result neither starts nor ends with whitespace |
| NameEntryDialog.TrimKeepsMiddle | src/components/NameEntryDialog.tsx:15 | the trimmed string is a substring of the input with only whitespace before and after it |
| NameEntryDialog.TrimmedIsFixed | src/components/NameEntryDialog.tsx:15 | trimming a trimmed string changes nothing |
| NameEntryDialog.TrimIdempotent | src/components/NameEntryDialog.tsx:15 | trimming twice is the same as trimming once |
| NameEntryDialog.Utf16Length | src/components/NameEntryDialog.tsx:16-17 | the length in UTF-16 code units lies between the number of characters and twice that |
| NameEntryDialog.AllBmpLength | src/components/NameEntryDialog.tsx:16-17 | a string of characters up to U+FFFF has one code unit per character |
| NameEntryDialog.ValidateName | src/components/NameEntryDialog.tsx:14-17 | accepted iff the trimmed length is 2..50; an accepted name is the non-empty trimmed input; below 2 gives the "at least 2" message; above 50 gives the "less than 50" message |
| NameEntryDialog.AcceptedNameRevalidates | src/components/NameEntryDialog.tsx:14-17 | validating an accepted name again accepts it unchanged |
| NameEntryDialog.FiftyCharactersAccepted | src/components/NameEntryDialog.tsx:17 | a trimmed name of exactly 50 code units is accepted, despite the message; one of 51 is refused with the too-long message |
| NameEntryDialog.PaddedLetterTooShort | src/components/NameEntryDialog.tsx:15-16 | " a " is refused as too short, because its trimmed length is 1 |
| NameEntryDialog.SingleEmojiAccepted | src/components/NameEntryDialog.tsx:16 | one character outside the Basic Multilingual Plane counts as two code units and meets the minimum |
| NameEntryDialog.Dialog.constructor | src/components/NameEntryDialog.tsx:25-26 | the field and the error start empty, and nothing has been submitted |
| NameEntryDialog.Dialog.Change | src/components/NameEntryDialog.tsx:56 | typing replaces the field's value |
| NameEntryDialog.Dialog.HandleSubmit | src/components/NameEntryDialog.tsx:28-39 | a refused name sets the first error message and submits nothing; an accepted one clears the error and submits the trimmed name once |
| SelectionStore.StoreInsert | src/pages/Draw.tsx:143-155 | an insert either appends the requested row or changes nothing; with no other error, it fails with 23505 iff the ballot's slot is already claimed; it preserves slot uniqueness |
| SelectionStore.Fetch | src/pages/Draw.tsx:93-96 | the fetched rows are exactly the table's rows for the ballot |
| SelectionStore.FetchDistinctSlots | src/pages/Draw.tsx:93-96 | under the (draw, slot) unique constraint, the rows fetched for one ballot are on distinct slots |
| SelectionStore.FetchAppend | src/pages/Draw.tsx:93-96 | fetching after an insert for the ballot gives the rows fetched before plus the new row, as a multiset (the query promises no order) |
| SelectionStore.LostRaceShowsSlotTaken | src/pages/Draw.tsx:114-116 | a claim on a claimed slot fails with 23505, and after the re-fetch, in whatever order the rows come back, that slot is no longer available |
| SelectionStore.WonClaimLocksGrid | src/pages/Draw.tsx:143-150 | a claim on a free slot is recorded; after the re-fetch, in whatever order the rows come back, the slot shows as the claimant's pick and every button is disabled |
| DrawPage.StorageKey | src/pages/Draw.tsx:31 | the storage key is `fairdraw_session_` followed by the ballot id |
| DrawPage.StorageKeyInjective | src/pages/Draw.tsx:50 | two ballots share a storage key iff they have the same id |
| DrawPage.InsertNotice | src/pages/Draw.tsx:154-171 | "Slot taken" iff the error code is 23505; the generic failure iff the code is any other; success iff there is no error |
| DrawPage.UserSelection | src/pages/Draw.tsx:197 | none iff no selection carries the session id; otherwise the first one that does |
| DrawPage.UserSelectionIffHasSelected | src/pages/Draw.tsx:197 | the page's `userSelection` exists iff the grid's `userHasSelected` holds |
| DrawPage.UserSelectionIsOwn | src/pages/Draw.tsx:197 | the found selection belongs to the list and carries the session id |
| DrawPage.WaitingShowsOwnPick | src/pages/Draw.tsx:197 | when slots are distinct, the slot of the session's selection shows as its own pick |
| DrawPage.OwnPickShowsYourPick | src/pages/Draw.tsx:197 | when slots are distinct, the button of the session's selection shows "Your Pick" in the selected look |
| DrawPage.IsComplete | src/pages/Draw.tsx:198 | the ballot is complete once there are at least as many selections as participants |
| DrawPage.ClaimAllowed | src/pages/Draw.tsx:139 | a claim goes ahead iff the id, the name and the session id are all non-empty and no insert is in flight; neither the slot nor an earlier pick is consulted |
| DrawPage.GridDisabled | src/pages/Draw.tsx:290 | the grid is disabled iff there is no name yet or an insert is in flight |
| DrawPage.ViewOf | src/pages/Draw.tsx:174-301 | spinner iff loading; not-found card iff loaded without a draw; results iff the draw is complete (`selections.length >= participants_count`); otherwise the ballot card, "waiting" iff the session has selected, grid disabled iff there is no name or an insert is in flight |
| DrawPage.LockedWhileWaiting | src/pages/Draw.tsx:279-293 | a session that has picked on an incomplete ballot sees the waiting card and only disabled buttons |
| DrawPage.Page.View | src/pages/Draw.tsx:174-195 | while the page invariant holds (loading ends only with a draw), the not-found card is never rendered |
| DrawPage.Page.constructor | src/pages/Draw.tsx:34-44 | the initial hook values: no draw, no selections, loading, empty session and name, dialog hidden, no insert in flight |
| DrawPage.Page.InitSession | src/pages/Draw.tsx:47-62 | without an id, nothing changes; with a stored session, its id and name are restored and the dialog is left alone; otherwise a fresh session id is taken and the dialog opens |
| DrawPage.Page.ReceiveDraw | src/pages/Draw.tsx:65-86 | a found draw is kept and loading ends; a missing one navigates home and leaves the page loading; the invariant is kept |
| DrawPage.Page.ReceiveSelections | src/pages/Draw.tsx:92-99 | the list is replaced wholesale by the fetched rows, or by the empty list when the query returned nothing |
| DrawPage.Page.NameSubmit | src/pages/Draw.tsx:125-136 | with an id, the name is set, the dialog closes, and `{sessionId, name}` is stored under the ballot's key |
| DrawPage.ReturningVisitorRestored | src/pages/Draw.tsx:47-62 | after the name submit on a ballot, a new visit to that ballot restores the session id the visitor had before the submit and the submitted name, and the name dialog stays closed; the submit changes only the name, the dialog flag and storage |
| DrawPage.Page.BeginClaim | src/pages/Draw.tsx:138-150 | with the guard failing, nothing is sent and nothing changes; otherwise the insert is marked in flight and the row carries the id, slot, name and session id |
| DrawPage.Page.FinishClaim | src/pages/Draw.tsx:152-171 | the in-flight flag is cleared whatever the outcome, and the notice matches the outcome |
| DrawPage.DoubleClickIgnored | src/pages/Draw.tsx:139-141 | a second click while the first insert is in flight sends nothing |
| DrawPage.SecondPickReachesTheTable | src/pages/Draw.tsx:139 | the guard does not consult the selection list: a session that already holds a row can claim a free slot and end with two rows |

## Left out

- Randomness: the values of `Math.random` are the `draws` parameter. Uniform distribution of the shuffle is not stated; it is a probabilistic property.
- `generateSessionId` (src/lib/shuffle.ts:38-40) depends on the clock and on randomness. `DrawPage.Page.InitSession` takes its result as the `freshSessionId` parameter.
- SelectionStore.Fetch: lists a ballot's rows in table order. The query at src/pages/Draw.tsx:93-96 asks for no order, so the backend may return them in any order (by the (draw, slot) index, for instance). The order is not modelled: the lemmas that read a fetched list take any list holding exactly the ballot's rows, and FetchAppend is stated on multisets.
- Supabase is not part of this model: queries, the realtime channel and its teardown. Toasts other than the claim outcome are left out too, as are router navigation (kept only as the `navigatedHome` flag) and `JSON.parse` of stored entries (storage holds records, so malformed JSON is not modelled). Each change notification is a call to `ReceiveSelections`.
- React scheduling: stale closures, batched state updates, and handlers that interleave around an `await` in ways other than `BeginClaim`/`FinishClaim`.
- ResultsDisplay.SortedResults: requires every selected slot's key to be in the map. For a missing key the source compares `undefined` positions; the comparator then returns `NaN` and the order is up to the engine.
- Number rendering is modelled for integers only. Non-integer slots and positions are not modelled, nor magnitudes that JavaScript prints in exponent form.
- `useParams` returning no id is modelled as the empty id. Both are falsy, and the page treats them the same.
- Dafny characters are Unicode scalar values. Strings holding lone UTF-16 surrogates, which JavaScript allows, cannot be represented.
- DrawPage: the ballot grid's button list is not computed for the page. src/pages/Draw.tsx:288-293 does not pass the `participant_count` prop that src/components/BallotGrid.tsx:14,19 reads, and no value is invented for it. The grid lemmas take the count as a parameter. With the prop undefined, `Array.from({length: undefined})` is empty, so the page as written renders no slot buttons: that is `Slots(0) == []` in the model.
- The header, the status card, titles and descriptions; CSS classes, icons as images, and animations.
- `src/pages/Dashboard.tsx`, `src/pages/Auth.tsx`, `src/pages/Comments.tsx` and `src/pages/Index.tsx` are not part of this model. They are network CRUD, authentication wrappers and static markup.
