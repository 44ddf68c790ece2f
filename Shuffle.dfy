/** The fair-draw engine (src/lib/shuffle.ts): the Fisher-Yates shuffle, the slot -> position
    map built from it, and the ordinal labels of positions.

    The random index `Math.floor(Math.random() * (i + 1))` becomes an input: `draws[i]` is the
    index j the loop draws when its counter is i, and `ValidDraws` says every such j lies in
    0..i, which is all the random source guarantees. */
module Shuffle {
  import opened Seqs
  import opened Decimal

  /** Number of slots and positions in every ballot the application creates. */
  const SlotCount: nat := 6

  /** One draw per loop counter value, each within 0..i. */
  predicate ValidDraws(draws: seq<nat>, n: nat) {
    |draws| == n && forall i :: 0 <= i < n ==> draws[i] <= i
  }

  /** The destructuring swap `[s[i], s[j]] = [s[j], s[i]]`. */
  function Swap<T>(s: seq<T>, i: nat, j: nat): (r: seq<T>)
    requires i < |s| && j < |s|
    ensures |r| == |s|
    ensures r[i] == s[j] && r[j] == s[i]
    ensures forall k :: 0 <= k < |s| && k != i && k != j ==> r[k] == s[k]
  {
    s[i := s[j]][j := s[i]]
  }

  lemma SwapPermutes<T>(s: seq<T>, i: nat, j: nat)
    requires i < |s| && j < |s|
    ensures multiset(Swap(s, i, j)) == multiset(s)
  {
    var t := s[i := s[j]];
    assert multiset(t) == multiset(s) - multiset{s[i]} + multiset{s[j]};
    assert multiset(t[j := s[i]]) == multiset(t) - multiset{t[j]} + multiset{s[i]};
  }

  /** The state of the array after the loop has run for counters i, i-1, ..., 1. */
  function SwapDown<T>(s: seq<T>, draws: seq<nat>, i: int): (r: seq<T>)
    requires ValidDraws(draws, |s|) && i < |s|
    ensures |r| == |s|
    decreases i
  {
    if i <= 0 then s else SwapDown(Swap(s, i, draws[i]), draws, i - 1)
  }

  lemma {:induction false} SwapDownPermutes<T>(s: seq<T>, draws: seq<nat>, i: int)
    requires ValidDraws(draws, |s|) && i < |s|
    ensures multiset(SwapDown(s, draws, i)) == multiset(s)
    decreases i
  {
    if i > 0 {
      SwapPermutes(s, i, draws[i]);
      SwapDownPermutes(Swap(s, i, draws[i]), draws, i - 1);
    }
  }

  /** The result of `shuffleArray` on s with the given draws. */
  function FisherYates<T>(s: seq<T>, draws: seq<nat>): seq<T>
    requires ValidDraws(draws, |s|)
  {
    SwapDown(s, draws, |s| - 1)
  }

  /** The shuffle returns a permutation of its input, of the same length. */
  lemma FisherYatesPermutes<T>(s: seq<T>, draws: seq<nat>)
    requires ValidDraws(draws, |s|)
    ensures |FisherYates(s, draws)| == |s|
    ensures multiset(FisherYates(s, draws)) == multiset(s)
  {
    SwapDownPermutes(s, draws, |s| - 1);
  }

  /** Arrays of length 0 or 1 come back unchanged: the loop body never runs. */
  lemma FisherYatesShortIsIdentity<T>(s: seq<T>, draws: seq<nat>)
    requires ValidDraws(draws, |s|) && |s| <= 1
    ensures FisherYates(s, draws) == s
  {
  }

  /** The swaps the loop performs, in order: (i, draws[i]) for i from n-1 down to 1. */
  function SwapSchedule(draws: seq<nat>, n: nat): (schedule: seq<(nat, nat)>)
    requires ValidDraws(draws, n)
    ensures |schedule| == if n == 0 then 0 else n - 1
    ensures forall k :: 0 <= k < |schedule| ==>
      schedule[k].0 == n - 1 - k && schedule[k].1 <= schedule[k].0 < n && 1 <= schedule[k].0
  {
    SwapsFrom(draws, n, n - 1)
  }

  function SwapsFrom(draws: seq<nat>, n: nat, i: int): (schedule: seq<(nat, nat)>)
    requires ValidDraws(draws, n) && i < n
    ensures |schedule| == if i <= 0 then 0 else i
    ensures forall k :: 0 <= k < |schedule| ==>
      schedule[k].0 == i - k && schedule[k].1 <= schedule[k].0 && 1 <= schedule[k].0
    decreases i
  {
    if i <= 0 then [] else [(i as nat, draws[i])] + SwapsFrom(draws, n, i - 1)
  }

  /** Performs the swaps of a schedule one after the other. */
  function ApplySwaps<T>(s: seq<T>, schedule: seq<(nat, nat)>): seq<T>
    requires forall k :: 0 <= k < |schedule| ==> schedule[k].0 < |s| && schedule[k].1 < |s|
    decreases |schedule|
  {
    if schedule == [] then s
    else ApplySwaps(Swap(s, schedule[0].0, schedule[0].1), schedule[1..])
  }

  /** The shuffle does nothing but perform the schedule's swaps, each on indices j <= i < n. */
  lemma {:induction false} FisherYatesFollowsSchedule<T>(s: seq<T>, draws: seq<nat>)
    requires ValidDraws(draws, |s|)
    ensures FisherYates(s, draws) == ApplySwaps(s, SwapSchedule(draws, |s|))
  {
    SwapDownFollowsSchedule(s, draws, |s| - 1);
  }

  lemma {:induction false} SwapDownFollowsSchedule<T>(s: seq<T>, draws: seq<nat>, i: int)
    requires ValidDraws(draws, |s|) && i < |s|
    ensures SwapDown(s, draws, i) == ApplySwaps(s, SwapsFrom(draws, |s|, i))
    decreases i
  {
    if i > 0 {
      var t := Swap(s, i, draws[i]);
      var rest := SwapsFrom(draws, |s|, i - 1);
      var schedule := SwapsFrom(draws, |s|, i);
      assert schedule == [(i as nat, draws[i])] + rest;
      assert schedule[1..] == rest;
      calc {
        ApplySwaps(s, schedule);
        ApplySwaps(t, rest);
        { SwapDownFollowsSchedule(t, draws, i - 1); }
        SwapDown(t, draws, i - 1);
      }
    }
  }

  /** `shuffleArray`: copies the input, then swaps from the last index down to index 1. */
  method ShuffleArray<T>(input: array<T>, draws: seq<nat>) returns (shuffled: array<T>)
    requires ValidDraws(draws, input.Length)
    ensures fresh(shuffled)
    ensures input[..] == old(input[..])
    ensures shuffled[..] == FisherYates(input[..], draws)
    ensures multiset(shuffled[..]) == multiset(input[..])
  {
    shuffled := new T[input.Length](k requires 0 <= k < input.Length reads input => input[k]);
    assert shuffled[..] == input[..];
    var i := shuffled.Length - 1;
    while i > 0
      invariant -1 <= i < shuffled.Length
      invariant SwapDown(shuffled[..], draws, i) == FisherYates(input[..], draws)
    {
      var j := draws[i];
      ghost var before := shuffled[..];
      shuffled[i], shuffled[j] := shuffled[j], shuffled[i];
      assert shuffled[..] == Swap(before, i, j);
      i := i - 1;
    }
    FisherYatesPermutes(input[..], draws);
  }

  /** The key under which a shuffle map stores a slot's position: `slot_<n>`. */
  function SlotKey(slot: int): string {
    "slot_" + IntToString(slot)
  }

  /** Different slots have different keys, so a map keyed by them stores one entry per slot. */
  lemma SlotKeyInjective(a: int, b: int)
    requires SlotKey(a) == SlotKey(b)
    ensures a == b
  {
    assert SlotKey(a)[5..] == IntToString(a);
    assert SlotKey(b)[5..] == IntToString(b);
    IntToStringInjective(a, b);
  }

  /** The keys `slot_1` .. `slot_<n>`. */
  function SlotKeys(n: nat): (keys: set<string>)
    ensures forall k :: 1 <= k <= n ==> SlotKey(k) in keys
  {
    if n == 0 then {} else SlotKeys(n - 1) + {SlotKey(n)}
  }

  /** A key of the form `slot_<k>` is among the first n keys exactly when 1 <= k <= n. */
  lemma {:induction false} SlotKeysMembership(n: nat, k: int)
    ensures SlotKey(k) in SlotKeys(n) <==> 1 <= k <= n
  {
    if n > 0 {
      SlotKeysMembership(n - 1, k);
      if SlotKey(k) == SlotKey(n) {
        SlotKeyInjective(k, n);
      }
    }
  }

  /** The positions 1 .. n. */
  function Positions(n: nat): (positions: set<int>)
    ensures forall p :: p in positions <==> 1 <= p <= n
  {
    if n == 0 then {} else Positions(n - 1) + {n}
  }

  /** m is a bijection from the slots 1..n, keyed `slot_<k>`, onto the positions 1..n. */
  ghost predicate IsShuffleMap(m: map<string, int>, n: nat) {
    && m.Keys == SlotKeys(n)
    && m.Values == Positions(n)
    && (forall k, l :: 1 <= k < l <= n ==> m[SlotKey(k)] != m[SlotKey(l)])
  }

  /** `generateShuffleMap`: shuffles the positions 1..6 and stores the k-th shuffled value
      (counting from 1) under `slot_<k>`. */
  method GenerateShuffleMap(draws: seq<nat>) returns (m: map<string, int>)
    requires ValidDraws(draws, SlotCount)
    ensures IsShuffleMap(m, SlotCount)
    ensures forall k :: 1 <= k <= SlotCount ==>
      SlotKey(k) in m && m[SlotKey(k)] == FisherYates(OneTo(SlotCount), draws)[k - 1]
  {
    var positions := new int[SlotCount](k => k + 1);
    assert positions[..] == OneTo(SlotCount);
    var shuffled := ShuffleArray(positions, draws);
    ghost var values := shuffled[..];
    m := map[];
    var index := 0;
    while index < shuffled.Length
      invariant 0 <= index <= shuffled.Length
      invariant shuffled[..] == values
      invariant StoresPrefix(m, values, index)
    {
      StoreNext(m, values, index);
      m := m[SlotKey(index + 1) := shuffled[index]];
      index := index + 1;
    }
    ShuffledPositionsFormBijection(values, m);
  }

  /** m holds `slot_k` -> values[k-1] for k in 1..count and nothing else. */
  ghost predicate StoresPrefix(m: map<string, int>, values: seq<int>, count: nat)
    requires count <= |values|
  {
    && m.Keys == SlotKeys(count)
    && forall k :: 1 <= k <= count ==> SlotKey(k) in m && m[SlotKey(k)] == values[k - 1]
  }

  /** One step of the `forEach` that fills the map. */
  lemma StoreNext(m: map<string, int>, values: seq<int>, index: nat)
    requires index < |values| && StoresPrefix(m, values, index)
    ensures StoresPrefix(m[SlotKey(index + 1) := values[index]], values, index + 1)
  {
    var m' := m[SlotKey(index + 1) := values[index]];
    forall k | 1 <= k <= index + 1
      ensures SlotKey(k) in m' && m'[SlotKey(k)] == values[k - 1]
    {
      if k <= index {
        if SlotKey(k) == SlotKey(index + 1) {
          SlotKeyInjective(k, index + 1);
        }
      }
    }
  }

  /** Storing a permutation of 1..6 under `slot_1`..`slot_6` gives a bijection. */
  lemma ShuffledPositionsFormBijection(values: seq<int>, m: map<string, int>)
    requires multiset(values) == multiset(OneTo(SlotCount))
    requires |values| == SlotCount
    requires StoresPrefix(m, values, SlotCount)
    ensures IsShuffleMap(m, SlotCount)
  {
    PermutationKeepsDistinct(OneTo(SlotCount), values);
    StoredValuesArePositions(values, m, SlotCount);
    PositionsAreStoredValues(values, m, SlotCount);
  }

  lemma StoredValuesArePositions(values: seq<int>, m: map<string, int>, n: nat)
    requires multiset(values) == multiset(OneTo(n))
    requires |values| == n
    requires StoresPrefix(m, values, n)
    ensures forall v :: v in m.Values ==> v in Positions(n)
  {
    forall v | v in m.Values
      ensures v in Positions(n)
    {
      var key :| key in m && m[key] == v;
      SlotKeysAreSlotKeys(n, key);
      var k: int :| 1 <= k <= n && key == SlotKey(k);
      assert values[k - 1] in multiset(OneTo(n));
    }
  }

  lemma PositionsAreStoredValues(values: seq<int>, m: map<string, int>, n: nat)
    requires multiset(values) == multiset(OneTo(n))
    requires |values| == n
    requires StoresPrefix(m, values, n)
    ensures forall p :: p in Positions(n) ==> p in m.Values
  {
    forall p | p in Positions(n)
      ensures p in m.Values
    {
      assert OneTo(n)[p - 1] == p;
      assert p in multiset(values);
      var i :| 0 <= i < |values| && values[i] == p;
      assert m[SlotKey(i + 1)] == p;
    }
  }

  /** Every key in SlotKeys(n) is `slot_<k>` for some k in 1..n. */
  lemma {:induction false} SlotKeysAreSlotKeys(n: nat, key: string)
    requires key in SlotKeys(n)
    ensures exists k :: 1 <= k <= n && key == SlotKey(k)
  {
    if key != SlotKey(n) {
      SlotKeysAreSlotKeys(n - 1, key);
    }
  }

  /** A bijection on 1..n sends distinct slots to distinct positions. */
  lemma ShuffleMapInjective(m: map<string, int>, n: nat, a: int, b: int)
    requires IsShuffleMap(m, n)
    requires 1 <= a <= n && 1 <= b <= n && a != b
    ensures SlotKey(a) in m && SlotKey(b) in m
    ensures m[SlotKey(a)] != m[SlotKey(b)]
  {
    if a > b {
      assert m[SlotKey(b)] != m[SlotKey(a)];
    }
  }

  /** The ordinal suffix the position table uses: st, nd, rd for 1, 2, 3 and th otherwise. */
  function OrdinalSuffix(position: int): string {
    if position == 1 then "st" else if position == 2 then "nd" else if position == 3 then "rd" else "th"
  }

  /** `getPositionLabel`: the table entry for 1..6, otherwise the number followed by "th". */
  function PositionLabel(position: int): (text: string)
    ensures text == IntToString(position) + OrdinalSuffix(position)
  {
    var labels := map[1 := "1st", 2 := "2nd", 3 := "3rd", 4 := "4th", 5 := "5th", 6 := "6th"];
    if position in labels then labels[position] else IntToString(position) + "th"
  }

  /** Different positions get different labels. */
  lemma PositionLabelInjective(a: int, b: int)
    requires PositionLabel(a) == PositionLabel(b)
    ensures a == b
  {
    var la, lb := PositionLabel(a), PositionLabel(b);
    assert la[..|la| - 2] == IntToString(a);
    assert lb[..|lb| - 2] == IntToString(b);
    IntToStringInjective(a, b);
  }

  /** Beyond the table the label is the naive "<n>th", with no 11th/21st/22nd rule. */
  lemma PositionLabelBeyondTable()
    ensures PositionLabel(7) == "7th"
    ensures PositionLabel(21) == "21th"
    ensures PositionLabel(22) == "22th"
    ensures PositionLabel(0) == "0th"
  {
    assert NatToDecimal(21) == NatToDecimal(2) + [DigitChar(1)];
    assert NatToDecimal(22) == NatToDecimal(2) + [DigitChar(2)];
  }
}
