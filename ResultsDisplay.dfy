/** The reveal (src/components/ResultsDisplay.tsx): every selection is paired with the position
    its slot maps to, the list is sorted ascending by position, and positions 1..3 get an icon
    and position 1 the winner's row style. */
module ResultsDisplay {
  import opened Seqs
  import opened Records
  import opened Shuffle

  /** A selection with its revealed position (`{...selection, monthPosition}`). */
  datatype RankedSelection = RankedSelection(selection: Selection, monthPosition: int)

  /** Every selection's slot has an entry in the shuffle map. */
  predicate PositionsKnown(selections: seq<Selection>, shuffleMap: map<string, int>) {
    forall i :: 0 <= i < |selections| ==> SlotKey(selections[i].selectedSlot) in shuffleMap
  }

  /** The position a selection's slot maps to: `shuffleMap[`slot_${selected_slot}`]`. */
  function PositionOf(shuffleMap: map<string, int>, selection: Selection): int
    requires SlotKey(selection.selectedSlot) in shuffleMap
  {
    shuffleMap[SlotKey(selection.selectedSlot)]
  }

  /** The `selections.map(...)` step. */
  function Annotate(selections: seq<Selection>, shuffleMap: map<string, int>): (ranked: seq<RankedSelection>)
    requires PositionsKnown(selections, shuffleMap)
    ensures |ranked| == |selections|
  {
    if selections == [] then []
    else
      var first := RankedSelection(selections[0], PositionOf(shuffleMap, selections[0]));
      KnownTail(selections, shuffleMap);
      [first] + Annotate(selections[1..], shuffleMap)
  }

  /** Each selection is paired, in place, with the position its slot maps to. */
  lemma AnnotateAt(selections: seq<Selection>, shuffleMap: map<string, int>)
    requires PositionsKnown(selections, shuffleMap)
    ensures var ranked := Annotate(selections, shuffleMap);
      forall i :: 0 <= i < |ranked| ==>
        ranked[i] == RankedSelection(selections[i], PositionOf(shuffleMap, selections[i]))
  {
    forall i | 0 <= i < |selections| {
      AnnotateIndex(selections, shuffleMap, i);
    }
  }

  lemma {:induction false} AnnotateIndex(selections: seq<Selection>, shuffleMap: map<string, int>, i: nat)
    requires PositionsKnown(selections, shuffleMap)
    requires i < |selections|
    ensures Annotate(selections, shuffleMap)[i] == RankedSelection(selections[i], PositionOf(shuffleMap, selections[i]))
    decreases i
  {
    if i > 0 {
      var tail := selections[1..];
      KnownTail(selections, shuffleMap);
      AnnotateIndex(tail, shuffleMap, i - 1);
      assert Annotate(selections, shuffleMap)[i] == Annotate(tail, shuffleMap)[i - 1];
      assert tail[i - 1] == selections[i];
    }
  }

  lemma KnownTail(selections: seq<Selection>, shuffleMap: map<string, int>)
    requires PositionsKnown(selections, shuffleMap)
    requires selections != []
    ensures PositionsKnown(selections[1..], shuffleMap)
  {
    var tail := selections[1..];
    forall i | 0 <= i < |tail| ensures SlotKey(tail[i].selectedSlot) in shuffleMap {
      assert tail[i] == selections[i + 1];
    }
  }

  /** Non-decreasing by position. */
  predicate SortedByPosition(ranked: seq<RankedSelection>) {
    forall i, j :: 0 <= i < j < |ranked| ==> ranked[i].monthPosition <= ranked[j].monthPosition
  }

  /** Places x before the first element whose position is not smaller, so that equal positions
      keep their original order. */
  function Insert(x: RankedSelection, sorted: seq<RankedSelection>): (r: seq<RankedSelection>)
    ensures |r| == |sorted| + 1
    ensures multiset(r) == multiset(sorted) + multiset{x}
  {
    if sorted == [] || x.monthPosition <= sorted[0].monthPosition then [x] + sorted
    else
      assert sorted == [sorted[0]] + sorted[1..];
      [sorted[0]] + Insert(x, sorted[1..])
  }

  lemma {:induction false} InsertKeepsSorted(x: RankedSelection, sorted: seq<RankedSelection>)
    requires SortedByPosition(sorted)
    ensures SortedByPosition(Insert(x, sorted))
  {
    if sorted != [] && x.monthPosition > sorted[0].monthPosition {
      var rest := Insert(x, sorted[1..]);
      InsertKeepsSorted(x, sorted[1..]);
      forall y | y in rest
        ensures sorted[0].monthPosition <= y.monthPosition
      {
        assert y in multiset(rest);
        if y != x {
          assert y in multiset(sorted[1..]);
        }
      }
      assert SortedByPosition(sorted[1..]);
      ConsKeepsSorted(sorted[0], rest);
    }
  }

  /** An element no later than anything in a sorted list can go in front of it. */
  lemma ConsKeepsSorted(head: RankedSelection, rest: seq<RankedSelection>)
    requires SortedByPosition(rest)
    requires forall y :: y in rest ==> head.monthPosition <= y.monthPosition
    ensures SortedByPosition([head] + rest)
  {
    var whole := [head] + rest;
    forall i, j | 0 <= i < j < |whole|
      ensures whole[i].monthPosition <= whole[j].monthPosition
    {
      assert whole[j] == rest[j - 1];
      if i > 0 {
        assert whole[i] == rest[i - 1];
      } else {
        assert rest[j - 1] in rest;
      }
    }
  }

  /** The `.sort((a, b) => a.monthPosition - b.monthPosition)` step: a stable sort by position. */
  function SortByPosition(ranked: seq<RankedSelection>): (r: seq<RankedSelection>)
    ensures |r| == |ranked|
    ensures multiset(r) == multiset(ranked)
    ensures SortedByPosition(r)
  {
    if ranked == [] then []
    else
      assert ranked == [ranked[0]] + ranked[1..];
      var rest := SortByPosition(ranked[1..]);
      InsertKeepsSorted(ranked[0], rest);
      Insert(ranked[0], rest)
  }

  function SelectionOf(r: RankedSelection): Selection {
    r.selection
  }

  function PositionOfRanked(r: RankedSelection): int {
    r.monthPosition
  }

  /** `sortedResults`: a permutation of the selections, each paired with the position its slot
      maps to, in non-decreasing order of position. */
  function SortedResults(selections: seq<Selection>, shuffleMap: map<string, int>): (results: seq<RankedSelection>)
    requires PositionsKnown(selections, shuffleMap)
    ensures |results| == |selections|
    ensures multiset(Map(results, SelectionOf)) == multiset(selections)
    ensures SortedByPosition(results)
    ensures forall i :: 0 <= i < |results| ==>
      SlotKey(results[i].selection.selectedSlot) in shuffleMap &&
      results[i].monthPosition == shuffleMap[SlotKey(results[i].selection.selectedSlot)]
  {
    var annotated := Annotate(selections, shuffleMap);
    var results := SortByPosition(annotated);
    MapPermutation(results, annotated, SelectionOf);
    AnnotatedSelections(selections, shuffleMap);
    AnnotatedPositions(selections, shuffleMap);
    forall i | 0 <= i < |results|
      ensures results[i] in annotated
    {
      assert results[i] in multiset(annotated);
    }
    results
  }

  /** Dropping the positions from the annotated list gives the selections back. */
  lemma AnnotatedSelections(selections: seq<Selection>, shuffleMap: map<string, int>)
    requires PositionsKnown(selections, shuffleMap)
    ensures Map(Annotate(selections, shuffleMap), SelectionOf) == selections
  {
    AnnotateAt(selections, shuffleMap);
    MapAt(Annotate(selections, shuffleMap), SelectionOf);
  }

  /** Every annotated row carries the position its slot maps to. */
  lemma AnnotatedPositions(selections: seq<Selection>, shuffleMap: map<string, int>)
    requires PositionsKnown(selections, shuffleMap)
    ensures forall r :: r in Annotate(selections, shuffleMap) ==>
      SlotKey(r.selection.selectedSlot) in shuffleMap &&
      r.monthPosition == shuffleMap[SlotKey(r.selection.selectedSlot)]
  {
    AnnotateAt(selections, shuffleMap);
  }

  /** With a shuffle map on 1..n and selections on distinct slots of 1..n, the revealed
      positions are distinct, so the reveal is strictly increasing: no ties to break. */
  lemma {:induction false} RevealStrictlyIncreasing(selections: seq<Selection>, shuffleMap: map<string, int>, n: nat)
    requires IsShuffleMap(shuffleMap, n)
    requires forall i :: 0 <= i < |selections| ==> 1 <= selections[i].selectedSlot <= n
    requires DistinctSlots(selections)
    ensures PositionsKnown(selections, shuffleMap)
    ensures var results := SortedResults(selections, shuffleMap);
      forall i, j :: 0 <= i < j < |results| ==> results[i].monthPosition < results[j].monthPosition
  {
    forall i | 0 <= i < |selections|
      ensures SlotKey(selections[i].selectedSlot) in shuffleMap
    {
      SlotKeysMembership(n, selections[i].selectedSlot);
    }
    var annotated := Annotate(selections, shuffleMap);
    var results := SortedResults(selections, shuffleMap);
    var positions := Map(annotated, PositionOfRanked);
    AnnotatedPositionsDistinct(selections, shuffleMap, n);
    MapPermutation(annotated, results, PositionOfRanked);
    PermutationKeepsDistinct(positions, Map(results, PositionOfRanked));
    MapAt(results, PositionOfRanked);
    forall i, j | 0 <= i < j < |results|
      ensures results[i].monthPosition < results[j].monthPosition
    {
      assert Map(results, PositionOfRanked)[i] != Map(results, PositionOfRanked)[j];
    }
  }

  /** Selections on distinct slots in range are annotated with distinct positions. */
  lemma AnnotatedPositionsDistinct(selections: seq<Selection>, shuffleMap: map<string, int>, n: nat)
    requires IsShuffleMap(shuffleMap, n)
    requires forall i :: 0 <= i < |selections| ==> 1 <= selections[i].selectedSlot <= n
    requires DistinctSlots(selections)
    requires PositionsKnown(selections, shuffleMap)
    ensures Distinct(Map(Annotate(selections, shuffleMap), PositionOfRanked))
  {
    var annotated := Annotate(selections, shuffleMap);
    AnnotateAt(selections, shuffleMap);
    var positions := Map(annotated, PositionOfRanked);
    MapAt(annotated, PositionOfRanked);
    forall i, j | 0 <= i < j < |positions|
      ensures positions[i] != positions[j]
    {
      ShuffleMapInjective(shuffleMap, n, selections[i].selectedSlot, selections[j].selectedSlot);
    }
  }

  /** A strictly increasing list of n values in 1..n is exactly 1, 2, ..., n. */
  lemma {:induction false} StrictlyIncreasingFillsRange(values: seq<int>, n: nat)
    requires |values| == n
    requires forall i :: 0 <= i < n ==> 1 <= values[i] <= n
    requires forall i, j :: 0 <= i < j < n ==> values[i] < values[j]
    ensures forall i :: 0 <= i < n ==> values[i] == i + 1
  {
    forall i | 0 <= i < n
      ensures values[i] == i + 1
    {
      AtLeastIndex(values, i);
      AtMostIndex(values, n, i);
    }
  }

  lemma {:induction false} AtLeastIndex(values: seq<int>, i: nat)
    requires i < |values|
    requires forall k :: 0 <= k < |values| ==> 1 <= values[k]
    requires forall k, l :: 0 <= k < l < |values| ==> values[k] < values[l]
    ensures values[i] >= i + 1
  {
    if i > 0 {
      AtLeastIndex(values, i - 1);
    }
  }

  lemma {:induction false} AtMostIndex(values: seq<int>, n: nat, i: nat)
    requires i < |values| == n
    requires forall k :: 0 <= k < |values| ==> values[k] <= n
    requires forall k, l :: 0 <= k < l < |values| ==> values[k] < values[l]
    ensures values[i] <= i + 1
    decreases n - i
  {
    if i < n - 1 {
      AtMostIndex(values, n, i + 1);
    }
  }

  /** Once all n slots are claimed, the reveal lists the positions 1st, 2nd, ..., nth in order. */
  lemma {:induction false} FullRevealIsRanking(selections: seq<Selection>, shuffleMap: map<string, int>, n: nat)
    requires IsShuffleMap(shuffleMap, n)
    requires |selections| == n
    requires forall i :: 0 <= i < n ==> 1 <= selections[i].selectedSlot <= n
    requires DistinctSlots(selections)
    ensures PositionsKnown(selections, shuffleMap)
    ensures var results := SortedResults(selections, shuffleMap);
      && |results| == n
      && (forall i :: 0 <= i < n ==> results[i].monthPosition == i + 1)
      && (n >= 1 ==> PositionLabel(results[0].monthPosition) == "1st")
      && (n >= 2 ==> PositionLabel(results[1].monthPosition) == "2nd")
      && (n >= 3 ==> PositionLabel(results[2].monthPosition) == "3rd")
  {
    RevealStrictlyIncreasing(selections, shuffleMap, n);
    var results := SortedResults(selections, shuffleMap);
    RevealedPositionsInRange(selections, shuffleMap, n);
    RankedFillRange(results, n);
    RankingLabels(results, n);
  }

  /** Every revealed position is one of the map's positions 1..n. */
  lemma RevealedPositionsInRange(selections: seq<Selection>, shuffleMap: map<string, int>, n: nat)
    requires IsShuffleMap(shuffleMap, n)
    requires PositionsKnown(selections, shuffleMap)
    ensures var results := SortedResults(selections, shuffleMap);
      forall i :: 0 <= i < |results| ==> 1 <= results[i].monthPosition <= n
  {
    var results := SortedResults(selections, shuffleMap);
    forall i | 0 <= i < |results|
      ensures 1 <= results[i].monthPosition <= n
    {
      assert shuffleMap[SlotKey(results[i].selection.selectedSlot)] in shuffleMap.Values;
    }
  }

  /** n rows with strictly increasing positions in 1..n are ranked 1, 2, ..., n. */
  lemma RankedFillRange(results: seq<RankedSelection>, n: nat)
    requires |results| == n
    requires forall i :: 0 <= i < n ==> 1 <= results[i].monthPosition <= n
    requires forall i, j :: 0 <= i < j < n ==> results[i].monthPosition < results[j].monthPosition
    ensures forall i :: 0 <= i < n ==> results[i].monthPosition == i + 1
  {
    var values := Map(results, PositionOfRanked);
    MapAt(results, PositionOfRanked);
    StrictlyIncreasingFillsRange(values, n);
  }

  /** Rows ranked 1, 2, 3, ... carry the labels 1st, 2nd and 3rd at the top. */
  lemma RankingLabels(results: seq<RankedSelection>, n: nat)
    requires |results| == n
    requires forall i :: 0 <= i < n ==> results[i].monthPosition == i + 1
    ensures n >= 1 ==> PositionLabel(results[0].monthPosition) == "1st"
    ensures n >= 2 ==> PositionLabel(results[1].monthPosition) == "2nd"
    ensures n >= 3 ==> PositionLabel(results[2].monthPosition) == "3rd"
  {
    PodiumLabels();
  }

  lemma PodiumLabels()
    ensures PositionLabel(1) == "1st" && PositionLabel(2) == "2nd" && PositionLabel(3) == "3rd"
  {
    var labels := map[1 := "1st", 2 := "2nd", 3 := "3rd", 4 := "4th", 5 := "5th", 6 := "6th"];
    assert 1 in labels && 2 in labels && 3 in labels;
  }

  /** `getIcon`: trophy, award and medal for the first three positions, nothing after. */
  datatype Icon = Trophy | Award | Medal

  function IconFor(position: int): (icon: Option<Icon>)
    ensures icon.Some? <==> 1 <= position <= 3
    ensures icon == Some(Trophy) <==> position == 1
    ensures icon == Some(Award) <==> position == 2
    ensures icon == Some(Medal) <==> position == 3
  {
    if position == 1 then Some(Trophy)
    else if position == 2 then Some(Award)
    else if position == 3 then Some(Medal)
    else None
  }

  /** `getRowStyle`: only position 1 is highlighted. */
  datatype RowStyle = Highlighted | Plain

  function RowStyleFor(position: int): (style: RowStyle)
    ensures style == Highlighted <==> IconFor(position) == Some(Trophy)
  {
    if position == 1 then Highlighted else Plain
  }

  /** In a full reveal the winner's row is the first one and the only highlighted one, and the
      trophy, award and medal go to the first three rows in that order. */
  lemma {:induction false} WinnerRowIsFirst(selections: seq<Selection>, shuffleMap: map<string, int>, n: nat)
    requires IsShuffleMap(shuffleMap, n)
    requires |selections| == n
    requires forall i :: 0 <= i < n ==> 1 <= selections[i].selectedSlot <= n
    requires DistinctSlots(selections)
    ensures PositionsKnown(selections, shuffleMap)
    ensures var results := SortedResults(selections, shuffleMap);
      && (forall i :: 0 <= i < n ==> (RowStyleFor(results[i].monthPosition) == Highlighted <==> i == 0))
      && (n >= 1 ==> IconFor(results[0].monthPosition) == Some(Trophy))
      && (n >= 2 ==> IconFor(results[1].monthPosition) == Some(Award))
      && (n >= 3 ==> IconFor(results[2].monthPosition) == Some(Medal))
      && (forall i :: 3 <= i < n ==> IconFor(results[i].monthPosition) == None)
  {
    FullRevealIsRanking(selections, shuffleMap, n);
  }

  /** Three selections on slots 1, 2, 3 with the map {slot_1: 3, slot_2: 1, slot_3: 2} are revealed
      in the order slot 2, slot 3, slot 1. */
  lemma ThreeSlotExample(a: Selection, b: Selection, c: Selection, m: map<string, int>)
    requires a.selectedSlot == 1 && b.selectedSlot == 2 && c.selectedSlot == 3
    requires SlotKey(1) in m && SlotKey(2) in m && SlotKey(3) in m
    requires m[SlotKey(1)] == 3 && m[SlotKey(2)] == 1 && m[SlotKey(3)] == 2
    ensures PositionsKnown([a, b, c], m)
    ensures SortedResults([a, b, c], m) ==
      [RankedSelection(b, 1), RankedSelection(c, 2), RankedSelection(a, 3)]
  {
    var annotated := Annotate([a, b, c], m);
    AnnotateAt([a, b, c], m);
    assert annotated == [RankedSelection(a, 3), RankedSelection(b, 1), RankedSelection(c, 2)];
    SortThreeOneTwo(annotated[0], annotated[1], annotated[2]);
  }

  lemma SortThreeOneTwo(x: RankedSelection, y: RankedSelection, z: RankedSelection)
    requires x.monthPosition == 3 && y.monthPosition == 1 && z.monthPosition == 2
    ensures SortByPosition([x, y, z]) == [y, z, x]
  {
    assert [x, y, z][1..] == [y, z];
    assert [y, z][1..] == [z];
    assert SortByPosition([z]) == [z];
    assert SortByPosition([y, z]) == [y, z];
    assert Insert(x, [z]) == [z, x];
    assert Insert(x, [y, z]) == [y, z, x];
  }
}
