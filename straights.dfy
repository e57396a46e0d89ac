/**
 * Straight detection on a hand sorted by descending value: the recursive
 * scan of is_n_length_straight_at, the ace-low "wheel", is_straight_at,
 * copy_straight and find_straight. A suit argument of NUM_SUITS means any
 * straight; another suit means a straight flush in that suit.
 */
module Straights {
  import opened Wrappers
  import opened Cards
  import opened HandOrder

  /** Every card of the hand is valid. */
  predicate AllValid(cards: seq<Card>) {
    forall i :: 0 <= i < |cards| ==> IsCardValid(cards[i])
  }

  /** A card may be part of the straight sought: any suit, or the flush suit. */
  predicate SuitOk(c: Card, fs: nat) {
    fs == NUM_SUITS || c.suit == fs
  }

  /** Some card at position `from` or later has value v and a suitable suit. */
  predicate HasFrom(cards: seq<Card>, from: nat, v: int, fs: nat) {
    exists j :: from <= j < |cards| && cards[j].value == v && SuitOk(cards[j], fs)
  }

  /** Some card after position i has value v and a suitable suit. */
  predicate HasAfter(cards: seq<Card>, i: nat, v: int, fs: nat) {
    HasFrom(cards, i + 1, v, fs)
  }

  /** The n values just below the card at i all appear after position i. */
  predicate RunBelow(cards: seq<Card>, i: nat, fs: nat, n: nat)
    requires i < |cards|
  {
    forall w :: cards[i].value - n <= w < cards[i].value ==> HasAfter(cards, i, w, fs)
  }

  /** An ace at i, with a suitable 5, 4, 3 and 2 after it. */
  predicate AceLowAt(cards: seq<Card>, i: nat, fs: nat) {
    i < |cards| && cards[i].value == VALUE_ACE &&
    forall w :: 2 <= w <= 5 ==> HasAfter(cards, i, w, fs)
  }

  /**
   * What is_straight_at reports for position i: 1 for a straight of five
   * descending values headed by card i, -1 for a wheel headed by the ace at
   * i, 0 otherwise (wrong suit at i, or a value under 5 there).
   */
  function StraightAt(cards: seq<Card>, i: nat, fs: nat): int
    requires i < |cards|
  {
    if !SuitOk(cards[i], fs) || cards[i].value < 5 then 0
    else if RunBelow(cards, i, fs, 4) then 1
    else if AceLowAt(cards, i, fs) then -1
    else 0
  }

  /** Stepping the straight one card down: the value right below, found at i. */
  lemma RunBelowStep(cards: seq<Card>, index: nat, i: nat, fs: nat, n: nat)
    requires SortedByValue(cards)
    requires index < i < |cards| && n >= 1
    requires cards[i].value == cards[index].value - 1 && SuitOk(cards[i], fs)
    ensures RunBelow(cards, index, fs, n) <==> RunBelow(cards, i, fs, n - 1)
  {
    var v: int := cards[index].value;
    if RunBelow(cards, index, fs, n) {
      forall w | cards[i].value - (n - 1) <= w < cards[i].value
        ensures HasAfter(cards, i, w, fs)
      {
        assert HasAfter(cards, index, w, fs);
        var j :| index + 1 <= j < |cards| && cards[j].value == w && SuitOk(cards[j], fs);
        assert i < j;
      }
    }
    if RunBelow(cards, i, fs, n - 1) {
      forall w | v - n <= w < v
        ensures HasAfter(cards, index, w, fs)
      {
        if w == v - 1 {
          assert cards[i].value == w;
        } else {
          assert HasAfter(cards, i, w, fs);
          var j :| i + 1 <= j < |cards| && cards[j].value == w && SuitOk(cards[j], fs);
          assert index + 1 <= j;
        }
      }
    }
  }

  /** In a sorted hand, no card from position i on has a value above that of card i. */
  lemma NoneFrom(cards: seq<Card>, i: nat, w: int, fs: nat)
    requires SortedByValue(cards) && i < |cards| && w > cards[i].value
    ensures !HasFrom(cards, i, w, fs)
  {
  }

  /**
   * is_n_length_straight_at: walk past cards of the same value (and cards of
   * the next value in the wrong suit) to the first suitable card of the next
   * value, and continue from there for n - 1 more values.
   */
  method IsNLengthStraightAt(cards: seq<Card>, index: nat, fs: nat, n: nat) returns (r: bool)
    requires SortedByValue(cards) && index < |cards|
    ensures r == RunBelow(cards, index, fs, n)
    decreases n
  {
    if n == 0 {
      return true;
    }
    var v: int := cards[index].value;
    var i := index + 1;
    while i < |cards|
      invariant index + 1 <= i <= |cards|
      invariant forall j :: index < j < i ==> !(cards[j].value == v - 1 && SuitOk(cards[j], fs))
    {
      var difference := cards[index].value - cards[i].value;
      if difference > 1 {
        NoneFrom(cards, i, v - 1, fs);
        assert !HasAfter(cards, index, v - 1, fs);
        return false;
      }
      if difference == 1 && (fs == NUM_SUITS || fs == cards[i].suit) {
        r := IsNLengthStraightAt(cards, i, fs, n - 1);
        RunBelowStep(cards, index, i, fs, n);
        return;
      }
      i := i + 1;
    }
    assert !HasAfter(cards, index, v - 1, fs);
    return false;
  }

  /**
   * is_ace_low_straight_at: an ace at index, then the first suitable 5 after
   * it, then a straight of length 3 (4, 3, 2) below that 5.
   */
  method IsAceLowStraightAt(cards: seq<Card>, index: nat, fs: nat) returns (r: bool)
    requires SortedByValue(cards)
    ensures r == AceLowAt(cards, index, fs)
  {
    if index >= |cards| || cards[index].value != 14 {
      return false;
    }
    var i := index;
    while i < |cards| && (cards[i].value > 5 || (cards[i].value == 5 && fs != NUM_SUITS && cards[i].suit != fs))
      invariant index <= i <= |cards|
      invariant forall j :: index <= j < i ==> !(cards[j].value == 5 && SuitOk(cards[j], fs))
    {
      i := i + 1;
    }
    if i >= |cards| || cards[i].value != 5 {
      if i < |cards| {
        NoneFrom(cards, i, 5, fs);
      }
      assert !HasAfter(cards, index, 5, fs);
      return false;
    }
    r := IsNLengthStraightAt(cards, i, fs, 3);
    AceLowFromFive(cards, index, i, fs);
  }

  lemma AceLowFromFive(cards: seq<Card>, index: nat, i: nat, fs: nat)
    requires SortedByValue(cards)
    requires index < i < |cards| && cards[index].value == VALUE_ACE
    requires cards[i].value == 5 && SuitOk(cards[i], fs)
    ensures AceLowAt(cards, index, fs) <==> RunBelow(cards, i, fs, 3)
  {
    if AceLowAt(cards, index, fs) {
      forall w | 2 <= w < 5
        ensures HasAfter(cards, i, w, fs)
      {
        assert HasAfter(cards, index, w, fs);
        var j :| index + 1 <= j < |cards| && cards[j].value == w && SuitOk(cards[j], fs);
        assert i < j;
      }
    }
    if RunBelow(cards, i, fs, 3) {
      forall w | 2 <= w <= 5
        ensures HasAfter(cards, index, w, fs)
      {
        if w < 5 {
          assert HasAfter(cards, i, w, fs);
          var j :| i + 1 <= j < |cards| && cards[j].value == w && SuitOk(cards[j], fs);
          assert index + 1 <= j;
        }
      }
    }
  }

  /**
   * is_straight_at: 0 for the wrong suit or a value under 5, 1 for an
   * ordinary straight headed here, -1 for a wheel whose ace is here.
   */
  method IsStraightAt(cards: seq<Card>, index: nat, fs: nat) returns (r: int)
    requires SortedByValue(cards) && index < |cards|
    ensures r == StraightAt(cards, index, fs)
  {
    if fs != NUM_SUITS && cards[index].suit != fs {
      return 0;
    }
    if cards[index].value < 5 {
      return 0;
    }
    var run := IsNLengthStraightAt(cards, index, fs, 4);
    if run {
      return 1;
    }
    var wheel := IsAceLowStraightAt(cards, index, fs);
    if wheel {
      return -1;
    }
    return 0;
  }

  /** The first position at or after `from` holding a suitable card of value v. */
  function FirstWith(cards: seq<Card>, from: nat, v: int, fs: nat): (r: nat)
    requires HasFrom(cards, from, v, fs)
    ensures from <= r < |cards| && cards[r].value == v && SuitOk(cards[r], fs)
    ensures forall j :: from <= j < r ==> !(cards[j].value == v && SuitOk(cards[j], fs))
    decreases |cards| - from
  {
    if cards[from].value == v && SuitOk(cards[from], fs) then from
    else
      assert HasFrom(cards, from + 1, v, fs);
      FirstWith(cards, from + 1, v, fs)
  }

  /** Suitable cards of the `count` values top, top - 1, ... all appear from position `from` on. */
  predicate RunFrom(cards: seq<Card>, from: nat, top: int, fs: nat, count: nat) {
    forall w :: top - count < w <= top ==> HasFrom(cards, from, w, fs)
  }

  /** The positions copy_straight picks: the first suitable card of each value top, top - 1, .... */
  function StraightRun(cards: seq<Card>, from: nat, top: int, fs: nat, count: nat): (r: seq<nat>)
    requires RunFrom(cards, from, top, fs, count)
    ensures |r| == count
    ensures forall k :: 0 <= k < count ==> from <= r[k] < |cards|
  {
    seq(count, k requires 0 <= k < count => FirstWith(cards, from, top - k, fs))
  }

  lemma RunFromAt(cards: seq<Card>, from: nat, top: int, fs: nat, count: nat, k: nat)
    requires RunFrom(cards, from, top, fs, count) && k < count
    ensures HasFrom(cards, from, top - k, fs)
  {
  }

  /** In a sorted hand the picks of a run lie at increasing positions, with values top - k. */
  lemma StraightRunShape(cards: seq<Card>, from: nat, top: int, fs: nat, count: nat)
    requires SortedByValue(cards) && RunFrom(cards, from, top, fs, count)
    ensures forall k :: 0 <= k < count ==>
      from <= StraightRun(cards, from, top, fs, count)[k] < |cards| &&
      cards[StraightRun(cards, from, top, fs, count)[k]].value == top - k &&
      SuitOk(cards[StraightRun(cards, from, top, fs, count)[k]], fs)
    ensures forall a, b :: 0 <= a < b < count ==>
      StraightRun(cards, from, top, fs, count)[a] < StraightRun(cards, from, top, fs, count)[b]
  {
    var r := StraightRun(cards, from, top, fs, count);
    forall k | 0 <= k < count
      ensures from <= r[k] < |cards| && cards[r[k]].value == top - k && SuitOk(cards[r[k]], fs)
    {
      RunFromAt(cards, from, top, fs, count, k);
      assert r[k] == FirstWith(cards, from, top - k, fs);
    }
  }

  /**
   * copy_straight: from position ind on, take the first suitable card of the
   * value of card ind, then of the value one lower, until count cards are
   * taken. The result lists the positions taken, in order.
   */
  method CopyStraight(cards: seq<Card>, ind: nat, fs: nat, count: nat) returns (picks: seq<nat>)
    requires SortedByValue(cards) && ind < |cards| && SuitOk(cards[ind], fs)
    requires RunFrom(cards, ind, cards[ind].value, fs, count)
    ensures picks == StraightRun(cards, ind, cards[ind].value, fs, count)
  {
    var top: int := cards[ind].value;
    var nextv: int := top;
    var i := ind;
    var c: nat := count;
    picks := [];
    ghost var run := StraightRun(cards, ind, top, fs, count);
    StraightRunShape(cards, ind, top, fs, count);
    while c > 0
      invariant ind <= i <= |cards| && c <= count
      invariant nextv == top - (count - c)
      invariant picks == run[..count - c]
      invariant c > 0 ==> i <= run[count - c]
      decreases |cards| - i
    {
      RunAt(cards, ind, top, fs, count, count - c, i);
      if cards[i].value == nextv && (fs == NUM_SUITS || cards[i].suit == fs) {
        assert run[..count - c + 1] == run[..count - c] + [i];
        picks := picks + [i];
        c := c - 1;
        nextv := nextv - 1;
      }
      i := i + 1;
    }
    assert run[..count] == run;
  }

  /** Up to the run's card of value top - k, only that card has that value and a suitable suit. */
  lemma RunAt(cards: seq<Card>, ind: nat, top: int, fs: nat, count: nat, k: nat, i: nat)
    requires RunFrom(cards, ind, top, fs, count) && k < count
    requires ind <= i <= StraightRun(cards, ind, top, fs, count)[k]
    ensures i < |cards|
    ensures (cards[i].value == top - k && SuitOk(cards[i], fs)) <==> i == StraightRun(cards, ind, top, fs, count)[k]
  {
    RunFromAt(cards, ind, top, fs, count, k);
    assert StraightRun(cards, ind, top, fs, count)[k] == FirstWith(cards, ind, top - k, fs);
  }

  /** In a sorted hand the next lower value lies beyond a card of the current value. */
  lemma FirstWithBelow(cards: seq<Card>, from: nat, v: int, fs: nat, i: nat)
    requires SortedByValue(cards) && HasFrom(cards, from, v, fs)
    requires from <= i < |cards| && cards[i].value == v + 1
    ensures FirstWith(cards, from, v, fs) > i
  {
  }

  /** The positions find_straight copies for the straight found at i. */
  function StraightPicks(cards: seq<Card>, i: nat, fs: nat): (r: seq<nat>)
    requires SortedByValue(cards) && i < |cards| && StraightAt(cards, i, fs) != 0
    ensures |r| == 5 && forall k :: 0 <= k < 5 ==> r[k] < |cards|
  {
    if StraightAt(cards, i, fs) == 1 then
      RegularRun(cards, i, fs);
      StraightRun(cards, i, cards[i].value, fs, 5)
    else
      assert HasAfter(cards, i, 5, fs);
      var five := FirstWith(cards, i + 1, 5, fs);
      WheelRun(cards, i, fs);
      StraightRun(cards, five, 5, fs, 4) + [i]
  }

  lemma RegularRun(cards: seq<Card>, i: nat, fs: nat)
    requires i < |cards| && StraightAt(cards, i, fs) == 1
    ensures RunFrom(cards, i, cards[i].value, fs, 5)
  {
    forall w | cards[i].value - 5 < w <= cards[i].value
      ensures HasFrom(cards, i, w, fs)
    {
      if w < cards[i].value {
        assert HasAfter(cards, i, w, fs);
      }
    }
  }

  lemma WheelRun(cards: seq<Card>, i: nat, fs: nat)
    requires SortedByValue(cards) && AceLowAt(cards, i, fs)
    ensures HasAfter(cards, i, 5, fs) && RunFrom(cards, FirstWith(cards, i + 1, 5, fs), 5, fs, 4)
  {
    assert HasAfter(cards, i, 5, fs);
    var five := FirstWith(cards, i + 1, 5, fs);
    forall w | 1 < w <= 5
      ensures HasFrom(cards, five, w, fs)
    {
      if w < 5 {
        assert HasAfter(cards, i, w, fs);
        var j :| i + 1 <= j < |cards| && cards[j].value == w && SuitOk(cards[j], fs);
        assert five <= j;
      }
    }
  }

  /** Whether an is_straight_at result is one the scan looks for (0: any straight). */
  predicate Wanted(x: int, want: int) {
    if want == 0 then x != 0 else x == want
  }

  /** The first index i, from `from` up to |cards| - 5, whose straight kind is wanted. */
  function ScanStraight(cards: seq<Card>, fs: nat, want: int, from: nat): (r: Option<nat>)
    requires |cards| >= 5 && from <= |cards| - 4
    ensures r.Some? ==> from <= r.value <= |cards| - 5 && Wanted(StraightAt(cards, r.value, fs), want)
    ensures r.Some? ==> forall j :: from <= j < r.value ==> !Wanted(StraightAt(cards, j, fs), want)
    ensures r.None? ==> forall j :: from <= j <= |cards| - 5 ==> !Wanted(StraightAt(cards, j, fs), want)
    decreases |cards| - from
  {
    if from == |cards| - 4 then None
    else if Wanted(StraightAt(cards, from, fs), want) then Some(from)
    else ScanStraight(cards, fs, want, from + 1)
  }

  /** find_straight as written: the straight of the first index that has one, ordinary or wheel. */
  function FindStraightSpec(cards: seq<Card>, fs: nat): (r: Option<seq<nat>>)
    requires SortedByValue(cards)
    ensures r.Some? ==> |r.value| == 5 && forall k :: 0 <= k < 5 ==> r.value[k] < |cards|
  {
    if |cards| < 5 then None
    else match ScanStraight(cards, fs, 0, 0)
      case None => None
      case Some(i) => Some(StraightPicks(cards, i, fs))
  }

  /** The best straight: the highest ordinary straight, or else a wheel. */
  function BestStraightSpec(cards: seq<Card>, fs: nat): (r: Option<seq<nat>>)
    requires SortedByValue(cards)
    ensures r.Some? ==> |r.value| == 5 && forall k :: 0 <= k < 5 ==> r.value[k] < |cards|
  {
    if |cards| < 5 then None
    else match ScanStraight(cards, fs, 1, 0)
      case Some(i) => Some(StraightPicks(cards, i, fs))
      case None =>
        match ScanStraight(cards, fs, -1, 0)
        case None => None
        case Some(i) => Some(StraightPicks(cards, i, fs))
  }

  /** Copy the straight found at i, as find_straight does for either kind. */
  method CopyFoundStraight(cards: seq<Card>, i: nat, fs: nat, x: int) returns (picks: seq<nat>)
    requires SortedByValue(cards) && i < |cards| && x == StraightAt(cards, i, fs) && x != 0
    ensures picks == StraightPicks(cards, i, fs)
  {
    if x < 0 {
      assert HasAfter(cards, i, 5, fs);
      var cpind := i + 1;
      while cards[cpind].value != 5 || !(fs == NUM_SUITS || cards[cpind].suit == fs)
        invariant i + 1 <= cpind <= FirstWith(cards, i + 1, 5, fs)
        decreases |cards| - cpind
      {
        cpind := cpind + 1;
      }
      WheelRun(cards, i, fs);
      picks := CopyStraight(cards, cpind, fs, 4);
      picks := picks + [i];
    } else {
      RegularRun(cards, i, fs);
      picks := CopyStraight(cards, i, fs, 5);
    }
  }

  /**
   * find_straight as written: no straight in fewer than 5 cards; otherwise
   * the straight at the first index 0 .. |cards| - 5 where is_straight_at
   * reports one.
   */
  method FindStraight(cards: seq<Card>, fs: nat) returns (r: Option<seq<nat>>)
    requires SortedByValue(cards)
    ensures r == FindStraightSpec(cards, fs)
  {
    if |cards| < 5 {
      return None;
    }
    for i := 0 to |cards| - 4
      invariant ScanStraight(cards, fs, 0, 0) == ScanStraight(cards, fs, 0, i)
    {
      var x := IsStraightAt(cards, i, fs);
      if x != 0 {
        var picks := CopyFoundStraight(cards, i, fs, x);
        return Some(picks);
      }
    }
    return None;
  }

  /** The corrected search: an ordinary straight at the first index that has one, else a wheel. */
  method FindBestStraight(cards: seq<Card>, fs: nat) returns (r: Option<seq<nat>>)
    requires SortedByValue(cards)
    ensures r == BestStraightSpec(cards, fs)
  {
    if |cards| < 5 {
      return None;
    }
    for i := 0 to |cards| - 4
      invariant ScanStraight(cards, fs, 1, 0) == ScanStraight(cards, fs, 1, i)
    {
      var x := IsStraightAt(cards, i, fs);
      if x > 0 {
        var picks := CopyFoundStraight(cards, i, fs, x);
        return Some(picks);
      }
    }
    for i := 0 to |cards| - 4
      invariant ScanStraight(cards, fs, -1, 0) == ScanStraight(cards, fs, -1, i)
    {
      var x := IsStraightAt(cards, i, fs);
      if x < 0 {
        var picks := CopyFoundStraight(cards, i, fs, x);
        return Some(picks);
      }
    }
    return None;
  }

  /** The top value of the straight at i: its head card, or 5 for a wheel. */
  function StraightTop(cards: seq<Card>, i: nat, fs: nat): int
    requires i < |cards|
  {
    if StraightAt(cards, i, fs) == 1 then cards[i].value else 5
  }

  /**
   * The five cards of a straight found at i: suitable suits, distinct
   * positions, values top, top - 1, ..., top - 4 for an ordinary straight
   * headed by card i, and 5, 4, 3, 2 followed by the ace at i for a wheel.
   */
  lemma StraightPicksShape(cards: seq<Card>, i: nat, fs: nat)
    requires SortedByValue(cards) && i < |cards| && StraightAt(cards, i, fs) != 0
    ensures forall k :: 0 <= k < 5 ==>
      StraightPicks(cards, i, fs)[k] < |cards| && SuitOk(cards[StraightPicks(cards, i, fs)[k]], fs)
    ensures forall a, b :: 0 <= a < b < 5 ==> StraightPicks(cards, i, fs)[a] != StraightPicks(cards, i, fs)[b]
    ensures StraightAt(cards, i, fs) == 1 ==>
      StraightPicks(cards, i, fs)[0] == i &&
      forall k :: 0 <= k < 5 ==> cards[StraightPicks(cards, i, fs)[k]].value == cards[i].value - k
    ensures StraightAt(cards, i, fs) == -1 ==>
      StraightPicks(cards, i, fs)[4] == i && cards[i].value == VALUE_ACE &&
      forall k :: 0 <= k < 4 ==> cards[StraightPicks(cards, i, fs)[k]].value == 5 - k
    ensures cards[StraightPicks(cards, i, fs)[0]].value == StraightTop(cards, i, fs)
    ensures i <= |cards| - 5
  {
    if StraightAt(cards, i, fs) == 1 {
      RegularPicksShape(cards, i, fs);
    } else {
      WheelPicksShape(cards, i, fs);
    }
  }

  lemma RegularPicksShape(cards: seq<Card>, i: nat, fs: nat)
    requires SortedByValue(cards) && i < |cards| && StraightAt(cards, i, fs) == 1
    ensures forall k :: 0 <= k < 5 ==>
      StraightPicks(cards, i, fs)[k] < |cards| && SuitOk(cards[StraightPicks(cards, i, fs)[k]], fs) &&
      cards[StraightPicks(cards, i, fs)[k]].value == cards[i].value - k
    ensures forall a, b :: 0 <= a < b < 5 ==> StraightPicks(cards, i, fs)[a] < StraightPicks(cards, i, fs)[b]
    ensures StraightPicks(cards, i, fs)[0] == i
    ensures i <= |cards| - 5
  {
    var p := StraightPicks(cards, i, fs);
    RegularRun(cards, i, fs);
    StraightRunShape(cards, i, cards[i].value, fs, 5);
    assert p[0] == FirstWith(cards, i, cards[i].value, fs);
    assert p[0] < p[1] < p[2] < p[3] < p[4];
  }

  lemma WheelPicksShape(cards: seq<Card>, i: nat, fs: nat)
    requires SortedByValue(cards) && i < |cards| && StraightAt(cards, i, fs) == -1
    ensures forall k :: 0 <= k < 5 ==>
      StraightPicks(cards, i, fs)[k] < |cards| && SuitOk(cards[StraightPicks(cards, i, fs)[k]], fs)
    ensures forall k :: 0 <= k < 4 ==>
      i < StraightPicks(cards, i, fs)[k] && cards[StraightPicks(cards, i, fs)[k]].value == 5 - k
    ensures forall a, b :: 0 <= a < b < 4 ==> StraightPicks(cards, i, fs)[a] < StraightPicks(cards, i, fs)[b]
    ensures StraightPicks(cards, i, fs)[4] == i && cards[i].value == VALUE_ACE
    ensures i <= |cards| - 5
  {
    var p := StraightPicks(cards, i, fs);
    WheelRun(cards, i, fs);
    var five := FirstWith(cards, i + 1, 5, fs);
    StraightRunShape(cards, five, 5, fs, 4);
    var run := StraightRun(cards, five, 5, fs, 4);
    assert p == run + [i];
    assert p[0] < p[1] < p[2] < p[3];
    assert five <= p[0];
  }

  /** Every straight is headed at an index the scan visits (each needs four cards after it). */
  lemma StraightAtRoom(cards: seq<Card>, j: nat, fs: nat)
    requires SortedByValue(cards) && j < |cards| && StraightAt(cards, j, fs) != 0
    ensures |cards| >= 5 && j <= |cards| - 5
  {
    StraightPicksShape(cards, j, fs);
  }

  /** find_straight finds a straight exactly when the hand holds one. */
  lemma FindStraightFinds(cards: seq<Card>, fs: nat)
    requires SortedByValue(cards)
    ensures FindStraightSpec(cards, fs).Some? <==>
            exists j :: 0 <= j < |cards| && StraightAt(cards, j, fs) != 0
  {
    if j :| 0 <= j < |cards| && StraightAt(cards, j, fs) != 0 {
      StraightAtRoom(cards, j, fs);
    }
  }

  /** The corrected search finds a straight exactly when the hand holds one. */
  lemma BestStraightFinds(cards: seq<Card>, fs: nat)
    requires SortedByValue(cards)
    ensures BestStraightSpec(cards, fs).Some? <==>
            exists j :: 0 <= j < |cards| && StraightAt(cards, j, fs) != 0
  {
    if j :| 0 <= j < |cards| && StraightAt(cards, j, fs) != 0 {
      StraightAtRoom(cards, j, fs);
      if StraightAt(cards, j, fs) == 1 {
        assert Wanted(StraightAt(cards, j, fs), 1);
      } else {
        assert Wanted(StraightAt(cards, j, fs), -1);
      }
    }
  }

  /** The corrected search returns a straight whose top value is at least that of every straight in the hand. */
  lemma BestStraightIsBest(cards: seq<Card>, fs: nat, j: nat)
    requires SortedByValue(cards) && BestStraightSpec(cards, fs).Some?
    requires j < |cards| && StraightAt(cards, j, fs) != 0
    ensures cards[BestStraightSpec(cards, fs).value[0]].value >= StraightTop(cards, j, fs)
  {
    StraightAtRoom(cards, j, fs);
    var scan := ScanStraight(cards, fs, 1, 0);
    if scan.Some? {
      var i := scan.value;
      StraightPicksShape(cards, i, fs);
      if StraightAt(cards, j, fs) == 1 {
        assert i <= j;
        if i < j {
          assert cards[i].value >= cards[j].value;
        }
      }
    } else {
      var i := ScanStraight(cards, fs, -1, 0).value;
      StraightPicksShape(cards, i, fs);
      assert !Wanted(StraightAt(cards, j, fs), 1);
    }
  }

  /** A sorted six-card hand holding both a wheel and the straight 6 5 4 3 2. */
  const AceToSix: seq<Card> := [Card(14, 0), Card(6, 1), Card(5, 2), Card(4, 3), Card(3, 0), Card(2, 1)]

  lemma AceToSixSorted()
    ensures SortedByValue(AceToSix)
  {
  }

  /**
   * find_straight as written returns the wheel (top value 5) for the hand
   * A 6 5 4 3 2, although the hand holds the straight 6 5 4 3 2; the
   * corrected search returns the 6-high straight.
   */
  lemma FindStraightMissesSixHigh()
    ensures SortedByValue(AceToSix)
    ensures StraightAt(AceToSix, 1, NUM_SUITS) == 1 && StraightTop(AceToSix, 1, NUM_SUITS) == 6
    ensures FindStraightSpec(AceToSix, NUM_SUITS).Some?
    ensures AceToSix[FindStraightSpec(AceToSix, NUM_SUITS).value[0]].value == 5
    ensures BestStraightSpec(AceToSix, NUM_SUITS).Some?
    ensures AceToSix[BestStraightSpec(AceToSix, NUM_SUITS).value[0]].value == 6
  {
    var h := AceToSix;
    AceToSixSorted();
    forall w | 2 <= w <= 5
      ensures HasAfter(h, 1, w, NUM_SUITS) && HasAfter(h, 0, w, NUM_SUITS)
    {
      assert h[7 - w].value == w;
    }
    assert RunBelow(h, 1, NUM_SUITS, 4);
    NoneFrom(h, 1, 13, NUM_SUITS);
    assert !HasAfter(h, 0, 13, NUM_SUITS);
    assert !RunBelow(h, 0, NUM_SUITS, 4);
    assert AceLowAt(h, 0, NUM_SUITS);
    assert StraightAt(h, 0, NUM_SUITS) == -1;
    assert ScanStraight(h, NUM_SUITS, 0, 0) == Some(0);
    StraightPicksShape(h, 0, NUM_SUITS);
    StraightPicksShape(h, 1, NUM_SUITS);
    assert ScanStraight(h, NUM_SUITS, 1, 1) == Some(1);
    assert ScanStraight(h, NUM_SUITS, 1, 0) == Some(1);
  }
}
