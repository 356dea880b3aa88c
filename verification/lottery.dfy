/** The weighted draw `random.choices(prizes, weights=...)[0]`.

    Python draws `x = random() * total` and returns the first entry whose
    cumulative weight exceeds `x`. With integer weights, the cumulative weights
    are integers, so the first one exceeding `x` is the first one exceeding
    the integer `floor(x)`. The model therefore takes that integer, a "ticket"
    in `[0, total)`, as its input in place of the random source. */
module Lottery {

  /** One catalog entry. Weights are non-negative integers. */
  datatype Prize = Prize(name: string, weight: nat)

  /** The sum of all weights. */
  function TotalWeight(prizes: seq<Prize>): nat {
    if |prizes| == 0 then 0 else prizes[0].weight + TotalWeight(prizes[1..])
  }

  /** The cumulative weight of the first `k` entries. */
  function CumWeight(prizes: seq<Prize>, k: nat): nat
    requires k <= |prizes|
  {
    TotalWeight(prizes[..k])
  }

  lemma CumWeightAll(prizes: seq<Prize>)
    ensures CumWeight(prizes, |prizes|) == TotalWeight(prizes)
  {
    assert prizes[..|prizes|] == prizes;
  }

  /** Peeling off the first entry. */
  lemma CumWeightStep(prizes: seq<Prize>, k: nat)
    requires 1 <= k <= |prizes|
    ensures CumWeight(prizes, k) == prizes[0].weight + CumWeight(prizes[1..], k - 1)
  {
    assert prizes[..k][1..] == prizes[1..][..k - 1];
  }

  /** Adding an entry adds its weight. */
  lemma {:induction false} CumWeightNext(prizes: seq<Prize>, k: nat)
    requires k < |prizes|
    ensures CumWeight(prizes, k + 1) == CumWeight(prizes, k) + prizes[k].weight
    decreases k
  {
    CumWeightStep(prizes, k + 1);
    if k > 0 {
      CumWeightStep(prizes, k);
      CumWeightNext(prizes[1..], k - 1);
    }
  }

  /** Cumulative weights never decrease. */
  lemma {:induction false} CumWeightMonotone(prizes: seq<Prize>, j: nat, k: nat)
    requires j <= k <= |prizes|
    ensures CumWeight(prizes, j) <= CumWeight(prizes, k)
    decreases k - j
  {
    if j < k {
      CumWeightNext(prizes, j);
      CumWeightMonotone(prizes, j + 1, k);
    }
  }

  /** The index of the entry a ticket wins: the ticket falls in that entry's
      slice `[CumWeight(i), CumWeight(i + 1))` of the cumulative weights, so
      the entry has positive weight. */
  function Pick(prizes: seq<Prize>, ticket: nat): (i: nat)
    requires ticket < TotalWeight(prizes)
    ensures i < |prizes| && prizes[i].weight > 0
    ensures CumWeight(prizes, i) <= ticket < CumWeight(prizes, i + 1)
  {
    if ticket < prizes[0].weight then
      assert prizes[..1] == [prizes[0]];
      0
    else
      var j := Pick(prizes[1..], ticket - prizes[0].weight);
      CumWeightStep(prizes, j + 1);
      CumWeightStep(prizes, j + 2);
      1 + j
  }

  /** Reference definition of the draw: entry `i` wins a ticket exactly when
      the ticket lies in `i`'s slice of the cumulative weights. */
  lemma PickIffInSlice(prizes: seq<Prize>, ticket: nat, i: nat)
    requires ticket < TotalWeight(prizes) && i < |prizes|
    ensures Pick(prizes, ticket) == i <==> CumWeight(prizes, i) <= ticket < CumWeight(prizes, i + 1)
  {
    var p := Pick(prizes, ticket);
    if p < i {
      CumWeightMonotone(prizes, p + 1, i);
    } else if i < p {
      CumWeightMonotone(prizes, i + 1, p);
    }
  }

  /** The integers in `[a, b)`. */
  function Interval(a: int, b: int): (r: set<int>)
    ensures forall t :: t in r <==> a <= t < b
    decreases b - a
  {
    if b <= a then {} else {a} + Interval(a + 1, b)
  }

  lemma {:induction false} IntervalSize(a: int, b: int)
    requires a <= b
    ensures |Interval(a, b)| == b - a
    decreases b - a
  {
    if a < b {
      IntervalSize(a + 1, b);
      assert a !in Interval(a + 1, b);
    }
  }

  /** The tickets that win entry `i`. */
  function WinningTickets(prizes: seq<Prize>, i: nat): set<int> {
    set t | t in Interval(0, TotalWeight(prizes)) && Pick(prizes, t) == i
  }

  /** The draw is weighted: of the `TotalWeight` equally likely tickets,
      exactly `weight` win each entry, so an entry of weight 0 is never
      drawn and an entry of weight 3 is drawn three times as often as one of
      weight 1. */
  lemma WinningTicketsCount(prizes: seq<Prize>, i: nat)
    requires i < |prizes|
    ensures |WinningTickets(prizes, i)| == prizes[i].weight
  {
    var lo, hi := CumWeight(prizes, i), CumWeight(prizes, i + 1);
    CumWeightNext(prizes, i);
    CumWeightMonotone(prizes, i + 1, |prizes|);
    CumWeightAll(prizes);
    forall t: int | 0 <= t < TotalWeight(prizes)
      ensures Pick(prizes, t) == i <==> lo <= t < hi
    {
      PickIffInSlice(prizes, t, i);
    }
    assert WinningTickets(prizes, i) == Interval(lo, hi);
    IntervalSize(lo, hi);
  }
}
