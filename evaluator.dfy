/**
 * Hand evaluation: evaluate_hand and the helpers only it uses
 * (card_in_card_array, build_hand_from_match), and compare_hands. The five
 * cards of an evaluation are positions in the sorted hand; they stand
 * for the card pointers the C code copies into hand_eval_t.
 */
module Evaluator {
  import opened Wrappers
  import opened Cards
  import opened Decks
  import opened HandOrder
  import opened MatchCounts
  import opened Straights

  /** hand_eval_t: a ranking and the five cards that make it, most significant first. */
  datatype HandEval = HandEval(ranking: Ranking, picks: seq<nat>)

  /** No value occurs more than four times (evaluate_hand asserts this of the largest match count). */
  predicate FewOfAKind(cards: seq<Card>) {
    forall i :: 0 <= i < |cards| ==> ValueCount(cards, cards[i].value) <= 4
  }

  /** A hand evaluate_hand can work on: five cards or more, real suits, at most four of a kind. */
  predicate Evaluable(cards: seq<Card>) {
    |cards| >= 5 && SuitsInRange(cards) && FewOfAKind(cards)
  }

  /** Five different positions of the hand. */
  predicate ValidPicks(cards: seq<Card>, picks: seq<nat>) {
    |picks| == 5 &&
    (forall k :: 0 <= k < 5 ==> picks[k] < |cards|) &&
    (forall a, b :: 0 <= a < b < 5 ==> picks[a] != picks[b])
  }

  /** Five different positions of the hand, listed, are valid picks. */
  lemma ValidFive(cards: seq<Card>, a: nat, b: nat, c: nat, d: nat, e: nat)
    requires a < |cards| && b < |cards| && c < |cards| && d < |cards| && e < |cards|
    requires a != b && a != c && a != d && a != e && b != c && b != d && b != e && c != d && c != e && d != e
    ensures ValidPicks(cards, [a, b, c, d, e])
  {
  }

  /** The values of the five picked cards. */
  function PickValues(cards: seq<Card>, picks: seq<nat>): (vals: seq<nat>)
    requires ValidPicks(cards, picks)
    ensures |vals| == 5 && forall k :: 0 <= k < 5 ==> vals[k] == cards[picks[k]].value
  {
    seq(5, k requires 0 <= k < 5 => cards[picks[k]].value)
  }

  // ---------------------------------------------------------------------------
  // build_hand_from_match

  /**
   * card_in_card_array: whether position p is among the first `size`
   * entries of the buffer (pointer identity is position identity).
   */
  method CardInCardArray(arr: array<nat>, size: nat, p: nat) returns (r: bool)
    requires size <= arr.Length
    ensures r <==> p in arr[..size]
  {
    for i := 0 to size
      invariant p !in arr[..i]
    {
      assert arr[..i + 1] == arr[..i] + [arr[i]];
      if arr[i] == p {
        return true;
      }
    }
    return false;
  }

  /**
   * The five positions build_hand_from_match chooses for a group of n
   * cards at idx: the group, then the positions outside it in hand order.
   */
  function MatchPicks(n: nat, idx: nat): (r: seq<nat>)
    ensures |r| == 5
  {
    seq(5, k => if k < n then idx + k else if k - n < idx then k - n else k)
  }

  /**
   * The group comes first; the other picks avoid it, are increasing, and
   * precede every position that is neither in the group nor picked.
   */
  lemma MatchPicksShape(cards: seq<Card>, n: nat, idx: nat)
    requires |cards| >= 5 && n <= 5 && idx + n <= |cards|
    ensures ValidPicks(cards, MatchPicks(n, idx))
    ensures forall k :: 0 <= k < n ==> MatchPicks(n, idx)[k] == idx + k
    ensures forall k :: n <= k < 5 ==> !(idx <= MatchPicks(n, idx)[k] < idx + n)
    ensures forall a, b :: n <= a < b < 5 ==> MatchPicks(n, idx)[a] < MatchPicks(n, idx)[b]
    ensures forall p :: 0 <= p < |cards| && !(idx <= p < idx + n) && p !in MatchPicks(n, idx) ==>
              forall k :: n <= k < 5 ==> MatchPicks(n, idx)[k] < p
  {
    var r := MatchPicks(n, idx);
    forall p, k | 0 <= p < |cards| && !(idx <= p < idx + n) && n <= k < 5 && r[k] >= p
      ensures p in r
    {
      if p < idx {
        assert r[p + n] == p;
      } else {
        assert r[p] == p;
      }
    }
  }

  /** In a sorted hand the cards after the group are the highest ones outside it. */
  lemma MatchKickersHighest(cards: seq<Card>, n: nat, idx: nat, p: nat)
    requires SortedByValue(cards) && |cards| >= 5 && n <= 5 && idx + n <= |cards|
    requires p < |cards| && !(idx <= p < idx + n) && p !in MatchPicks(n, idx)
    ensures forall k :: n <= k < 5 ==> cards[MatchPicks(n, idx)[k]].value >= cards[p].value
  {
    MatchPicksShape(cards, n, idx);
  }

  /**
   * build_hand_from_match for the rankings evaluate_hand builds with it:
   * copy the n cards from idx on, then fill the remaining entries with the
   * first cards not yet copied.
   */
  method BuildHandFromMatch(cards: seq<Card>, n: nat, what: Ranking, idx: nat) returns (ans: HandEval)
    requires |cards| >= 5 && n <= 5 && idx < |cards| && idx + n <= |cards|
    ensures ans == HandEval(what, MatchPicks(n, idx))
  {
    var buf := new nat[5];
    var i: nat := 0;
    var index: nat := idx;
    while i < n
      invariant i <= n && index == idx + i
      invariant forall k :: 0 <= k < i ==> buf[k] == idx + k
    {
      buf[i] := index;
      i := i + 1;
      index := index + 1;
    }
    index := 0;
    while i < 5
      invariant n <= i <= 5 && index <= i
      invariant i - n == if index <= idx then index else if index <= idx + n then idx else index - n
      invariant forall k :: 0 <= k < i ==> buf[k] == MatchPicks(n, idx)[k]
      invariant forall k :: n <= k < i ==> buf[k] < index
      decreases 5 - index
    {
      var found := CardInCardArray(buf, i, index);
      assert found <==> idx <= index < idx + n by {
        if idx <= index < idx + n {
          assert buf[index - idx] == index;
        }
      }
      if !found {
        buf[i] := index;
        i := i + 1;
      }
      index := index + 1;
    }
    assert buf[..] == MatchPicks(n, idx);
    ans := HandEval(what, buf[..]);
  }

  // ---------------------------------------------------------------------------
  // The flush cards

  /** The positions of the cards of suit fs, in hand order. */
  function SuitPositions(cards: seq<Card>, fs: nat): (r: seq<nat>)
    ensures |r| == SuitCount(cards, fs)
    ensures forall k :: 0 <= k < |r| ==> r[k] < |cards| && cards[r[k]].suit == fs
    ensures forall a, b :: 0 <= a < b < |r| ==> r[a] < r[b]
    ensures forall p :: 0 <= p < |cards| && cards[p].suit == fs ==> p in r
  {
    if cards == [] then []
    else
      var init := cards[..|cards| - 1];
      var r := SuitPositions(init, fs);
      assert forall k :: 0 <= k < |r| ==> cards[r[k]] == init[r[k]];
      if cards[|cards| - 1].suit == fs then r + [|cards| - 1] else r
  }

  /** The positions of suit fs in a prefix of the hand begin the positions in the whole hand. */
  lemma {:induction false} SuitPositionsPrefix(cards: seq<Card>, fs: nat, m: nat)
    requires m <= |cards|
    ensures SuitPositions(cards[..m], fs) <= SuitPositions(cards, fs)
    decreases |cards|
  {
    if m < |cards| {
      var init := cards[..|cards| - 1];
      assert cards[..m] == init[..m];
      SuitPositionsPrefix(init, fs, m);
    } else {
      assert cards[..m] == cards;
    }
  }

  /** The cards evaluate_hand reports for a flush: the first five of suit fs. */
  function FlushPicks(cards: seq<Card>, fs: nat): (r: seq<nat>)
    requires SuitCount(cards, fs) >= 5
    ensures |r| == 5
  {
    SuitPositions(cards, fs)[..5]
  }

  /** The flush cards are five cards of suit fs, and in a sorted hand the highest five of it. */
  lemma FlushPicksShape(cards: seq<Card>, fs: nat)
    requires SortedByValue(cards) && SuitCount(cards, fs) >= 5
    ensures ValidPicks(cards, FlushPicks(cards, fs))
    ensures forall k :: 0 <= k < 5 ==> cards[FlushPicks(cards, fs)[k]].suit == fs
    ensures forall p :: 0 <= p < |cards| && cards[p].suit == fs && p !in FlushPicks(cards, fs) ==>
              forall k :: 0 <= k < 5 ==> cards[FlushPicks(cards, fs)[k]].value >= cards[p].value
  {
    var all := SuitPositions(cards, fs);
    var r := FlushPicks(cards, fs);
    forall p | 0 <= p < |cards| && cards[p].suit == fs && p !in r
      ensures forall k :: 0 <= k < 5 ==> cards[r[k]].value >= cards[p].value
    {
      var j :| 0 <= j < |all| && all[j] == p;
      assert j >= 5;
      forall k | 0 <= k < 5
        ensures cards[r[k]].value >= cards[p].value
      {
        assert r[k] == all[k] < all[j];
      }
    }
  }

  /** The flush branch of evaluate_hand: copy cards of suit fs until five are copied. */
  method CopyFlush(cards: seq<Card>, fs: nat) returns (picks: seq<nat>)
    requires SuitCount(cards, fs) >= 5
    ensures picks == FlushPicks(cards, fs)
  {
    picks := [];
    var i := 0;
    while i < |cards| && |picks| < 5
      invariant i <= |cards| && |picks| <= 5
      invariant picks == SuitPositions(cards[..i], fs)
    {
      assert cards[..i + 1][..i] == cards[..i];
      if cards[i].suit == fs {
        picks := picks + [i];
      }
      i := i + 1;
    }
    SuitPositionsPrefix(cards, fs, i);
    if i == |cards| {
      assert cards[..i] == cards;
    }
  }

  // ---------------------------------------------------------------------------
  // What evaluate_hand computes

  /** The largest match count (get_largest_element over get_match_counts). */
  function Kind(cards: seq<Card>): nat
    requires cards != []
  {
    MaxOf(Counts(cards))
  }

  /** The first position whose match count is the largest (get_match_index). */
  function MatchIdx(cards: seq<Card>): (r: nat)
    requires cards != []
    ensures r < |cards|
  {
    FirstIndexOf(Counts(cards), Kind(cards))
  }

  /** The first position of another value held at least twice (find_secondary_pair), or -1. */
  function OtherIdx(cards: seq<Card>): (r: int)
    requires cards != []
    ensures -1 <= r < |cards|
  {
    SecondaryPairFrom(cards, Counts(cards), cards[MatchIdx(cards)].value, 0)
  }

  /** The fifth card of two pair: the highest card in neither pair. */
  function TwoPairKicker(idx: nat, o: nat): nat {
    if idx > 0 then 0 else if o > 2 then 2 else 4
  }

  /**
   * The decisions of evaluate_hand, taken on what its helpers found: the
   * flush suit fs, the straight flush sf in that suit, the flush cards, the
   * straight st, the largest match count n, its first index idx and the
   * start o of a second pair (or -1). The cases are tried from the
   * strongest ranking down.
   */
  function Decide(fs: nat, sf: Option<seq<nat>>, flush: seq<nat>, st: Option<seq<nat>>,
                  n: nat, idx: nat, o: int): (r: HandEval)
    ensures r.ranking == StraightFlush <==> fs != NUM_SUITS && sf.Some?
    ensures fs != NUM_SUITS ==> r.ranking.Num() <= Flush.Num()
    ensures st.Some? ==> r.ranking.Num() <= Straight.Num()
  {
    if fs != NUM_SUITS && sf.Some? then HandEval(StraightFlush, sf.value)
    else if n == 4 then HandEval(FourOfAKind, MatchPicks(4, idx))
    else if n == 3 && o >= 0 then HandEval(FullHouse, MatchPicks(3, idx)[3 := o][4 := o + 1])
    else if fs != NUM_SUITS then HandEval(Flush, flush)
    else if st.Some? then HandEval(Straight, st.value)
    else if n == 3 then HandEval(ThreeOfAKind, MatchPicks(3, idx))
    else if o >= 0 then HandEval(TwoPair, [idx, idx + 1, o, o + 1, TwoPairKicker(idx, o)])
    else if n == 2 then HandEval(Pair, MatchPicks(2, idx))
    else HandEval(Nothing, MatchPicks(0, 0))
  }

  /** The case Decide takes, tried in evaluate_hand's order. */
  lemma DecideCases(fs: nat, sf: Option<seq<nat>>, flush: seq<nat>, st: Option<seq<nat>>, n: nat, idx: nat, o: int)
    ensures fs != NUM_SUITS && sf.Some? ==> Decide(fs, sf, flush, st, n, idx, o) == HandEval(StraightFlush, sf.value)
    ensures !(fs != NUM_SUITS && sf.Some?) && n == 4 ==>
              Decide(fs, sf, flush, st, n, idx, o) == HandEval(FourOfAKind, MatchPicks(4, idx))
    ensures !(fs != NUM_SUITS && sf.Some?) && n == 3 && o >= 0 ==>
              Decide(fs, sf, flush, st, n, idx, o) == HandEval(FullHouse, MatchPicks(3, idx)[3 := o][4 := o + 1])
    ensures !(fs != NUM_SUITS && sf.Some?) && n != 4 && !(n == 3 && o >= 0) && fs != NUM_SUITS ==>
              Decide(fs, sf, flush, st, n, idx, o) == HandEval(Flush, flush)
    ensures fs == NUM_SUITS && n != 4 && !(n == 3 && o >= 0) && st.Some? ==>
              Decide(fs, sf, flush, st, n, idx, o) == HandEval(Straight, st.value)
    ensures fs == NUM_SUITS && n != 4 && !(n == 3 && o >= 0) && st.None? ==>
              Decide(fs, sf, flush, st, n, idx, o) == Decide(NUM_SUITS, None, [], None, n, idx, o)
    ensures !(fs != NUM_SUITS && sf.Some?) ==> Decide(fs, sf, flush, st, n, idx, o) == Decide(fs, None, flush, st, n, idx, o)
  {
  }

  /** What each ranking Decide reports says about the findings, and the picks that go with it. */
  lemma DecideOutcome(fs: nat, sf: Option<seq<nat>>, flush: seq<nat>, st: Option<seq<nat>>, n: nat, idx: nat, o: int)
    requires n <= 4
    ensures Decide(fs, sf, flush, st, n, idx, o).ranking == StraightFlush ==> fs != NUM_SUITS && sf.Some? && Decide(fs, sf, flush, st, n, idx, o).picks == sf.value
    ensures Decide(fs, sf, flush, st, n, idx, o).ranking == FourOfAKind ==> n == 4 && Decide(fs, sf, flush, st, n, idx, o).picks == MatchPicks(4, idx)
    ensures Decide(fs, sf, flush, st, n, idx, o).ranking == FullHouse ==> n == 3 && o >= 0 && Decide(fs, sf, flush, st, n, idx, o).picks == MatchPicks(3, idx)[3 := o][4 := o + 1]
    ensures Decide(fs, sf, flush, st, n, idx, o).ranking == Flush ==> fs != NUM_SUITS && Decide(fs, sf, flush, st, n, idx, o).picks == flush
    ensures Decide(fs, sf, flush, st, n, idx, o).ranking == Straight ==> fs == NUM_SUITS && st.Some? && Decide(fs, sf, flush, st, n, idx, o).picks == st.value
    ensures Decide(fs, sf, flush, st, n, idx, o).ranking == ThreeOfAKind ==> n == 3 && o < 0 && Decide(fs, sf, flush, st, n, idx, o).picks == MatchPicks(3, idx)
    ensures Decide(fs, sf, flush, st, n, idx, o).ranking == TwoPair ==> n <= 2 && o >= 0 && Decide(fs, sf, flush, st, n, idx, o).picks == [idx, idx + 1, o, o + 1, TwoPairKicker(idx, o)]
    ensures Decide(fs, sf, flush, st, n, idx, o).ranking == Pair ==> n == 2 && o < 0 && Decide(fs, sf, flush, st, n, idx, o).picks == MatchPicks(2, idx)
    ensures Decide(fs, sf, flush, st, n, idx, o).ranking == Nothing ==> n <= 1 && o < 0 && Decide(fs, sf, flush, st, n, idx, o).picks == MatchPicks(0, 0)
  {
  }

  /** The straight flush of a hand: a straight in the flush suit, when there is one. */
  function StraightFlushOf(cards: seq<Card>): Option<seq<nat>>
    requires SortedByValue(cards)
  {
    var fs := FlushSuitOf(cards);
    if fs != NUM_SUITS then BestStraightSpec(cards, fs) else None
  }

  /** The flush cards of a hand, when it has a flush suit. */
  function FlushOf(cards: seq<Card>): seq<nat>
    requires SuitsInRange(cards)
  {
    var fs := FlushSuitOf(cards);
    FlushSuitOfSpec(cards);
    if fs != NUM_SUITS then FlushPicks(cards, fs) else []
  }

  /**
   * The evaluation of a sorted hand. Straights are searched for by the
   * corrected scan, which prefers the highest straight to a wheel.
   */
  function EvalSpec(cards: seq<Card>): (r: HandEval)
    requires Evaluable(cards) && SortedByValue(cards)
    ensures |r.picks| == 5
    ensures r.ranking == StraightFlush <==> FlushSuitOf(cards) != NUM_SUITS && StraightFlushOf(cards).Some?
  {
    MatchFits(cards);
    Decide(FlushSuitOf(cards), StraightFlushOf(cards), FlushOf(cards), BestStraightSpec(cards, NUM_SUITS),
           Kind(cards), MatchIdx(cards), OtherIdx(cards))
  }

  /** The first group: n cards of one value at idx .. idx + n - 1, none of that value elsewhere. */
  lemma MatchGroup(cards: seq<Card>)
    requires Evaluable(cards) && SortedByValue(cards)
    ensures 1 <= Kind(cards) <= 4
    ensures Kind(cards) == ValueCount(cards, cards[MatchIdx(cards)].value)
    ensures MatchIdx(cards) + Kind(cards) <= |cards|
    ensures forall k :: 0 <= k < |cards| ==>
              (cards[k].value == cards[MatchIdx(cards)].value <==> MatchIdx(cards) <= k < MatchIdx(cards) + Kind(cards))
    ensures forall k :: 0 <= k < |cards| ==> ValueCount(cards, cards[k].value) <= Kind(cards)
  {
    var counts := Counts(cards);
    var idx := MatchIdx(cards);
    var v := cards[idx].value;
    CountPositive(cards, idx);
    forall j | 0 <= j < idx
      ensures cards[j].value != v
    {
      assert counts[j] != Kind(cards);
    }
    GroupBlock(cards, idx);
    var i :| 0 <= i < |counts| && counts[i] == Kind(cards);
    assert Kind(cards) <= 4;
  }

  /**
   * Two positions with one value make a count of at least two. The lemma
   * finds where the value's block starts and uses its extent.
   */
  lemma SameValueCount(cards: seq<Card>, i: nat, j: nat)
    requires SortedByValue(cards) && i < j < |cards| && cards[i].value == cards[j].value
    ensures ValueCount(cards, cards[i].value) >= 2
  {
    var w := cards[i].value;
    var f := i;
    while f > 0 && cards[f - 1].value == w
      invariant f <= i
      invariant forall k :: f <= k <= i ==> cards[k].value == w
    {
      f := f - 1;
    }
    forall k | 0 <= k < f
      ensures cards[k].value != w
    {
      assert cards[k].value >= cards[f - 1].value > w;
    }
    GroupBlock(cards, f);
  }

  /** A position whose count is one holds a value no other position holds. */
  lemma SingleValue(cards: seq<Card>, i: nat, j: nat)
    requires SortedByValue(cards) && i < |cards| && j < |cards| && i != j
    requires ValueCount(cards, cards[i].value) <= 1
    ensures cards[i].value != cards[j].value
  {
    if cards[i].value == cards[j].value {
      if i < j {
        SameValueCount(cards, i, j);
      } else {
        SameValueCount(cards, j, i);
      }
    }
  }

  /**
   * The second group: at o and o + 1 two cards of one value other than the
   * first group's, with no card of that value before o; the two groups do
   * not overlap.
   */
  lemma OtherGroup(cards: seq<Card>)
    requires Evaluable(cards) && SortedByValue(cards) && OtherIdx(cards) >= 0
    ensures OtherIdx(cards) + 1 < |cards|
    ensures cards[OtherIdx(cards) + 1].value == cards[OtherIdx(cards)].value
    ensures cards[OtherIdx(cards)].value != cards[MatchIdx(cards)].value
    ensures 2 <= ValueCount(cards, cards[OtherIdx(cards)].value) <= Kind(cards)
    ensures MatchIdx(cards) + Kind(cards) <= OtherIdx(cards) || OtherIdx(cards) + 2 <= MatchIdx(cards)
    ensures forall k :: OtherIdx(cards) + ValueCount(cards, cards[OtherIdx(cards)].value) <= k < |cards| ==>
              cards[k].value < cards[OtherIdx(cards)].value
  {
    var counts := Counts(cards);
    var idx := MatchIdx(cards);
    var o := OtherIdx(cards);
    MatchGroup(cards);
    forall j | 0 <= j < o
      ensures cards[j].value != cards[o].value
    {
      assert !OtherPair(cards, counts, cards[idx].value, j);
    }
    GroupBlock(cards, o);
    assert OtherPair(cards, counts, cards[idx].value, o);
    assert cards[o + 1].value == cards[o].value;
    if o < idx {
      assert cards[idx].value < cards[o].value;
      assert o + 2 <= idx;
    }
  }

  /** With the largest count at most two and another pair present, the first group is a pair before it. */
  lemma TwoPairGroups(cards: seq<Card>)
    requires Evaluable(cards) && SortedByValue(cards) && OtherIdx(cards) >= 0 && Kind(cards) <= 2
    ensures Kind(cards) == 2 && MatchIdx(cards) + 2 <= OtherIdx(cards)
    ensures ValueCount(cards, cards[OtherIdx(cards)].value) == 2
  {
    MatchGroup(cards);
    OtherGroup(cards);
  }

  /** Every evaluation names five different cards of the hand. */
  lemma EvalPicksValid(cards: seq<Card>)
    requires Evaluable(cards) && SortedByValue(cards)
    ensures ValidPicks(cards, EvalSpec(cards).picks)
  {
    match EvalSpec(cards).ranking
    case StraightFlush => EvalStraightShape(cards);
    case FourOfAKind => EvalFourShape(cards);
    case FullHouse => EvalFullHouseShape(cards);
    case Flush => EvalFlushShape(cards);
    case Straight => EvalStraightShape(cards);
    case ThreeOfAKind => EvalThreeShape(cards);
    case TwoPair => EvalTwoPairShape(cards);
    case Pair => EvalPairShape(cards);
    case Nothing =>
      EvalNothingShape(cards);
      assert ValidPicks(cards, [0, 1, 2, 3, 4]);
  }

  /** The straight the corrected scan returns names five different cards of the hand. */
  lemma BestStraightValid(cards: seq<Card>, fs: nat)
    requires SortedByValue(cards) && BestStraightSpec(cards, fs).Some?
    ensures ValidPicks(cards, BestStraightSpec(cards, fs).value)
  {
    var i := if ScanStraight(cards, fs, 1, 0).Some? then ScanStraight(cards, fs, 1, 0).value
             else ScanStraight(cards, fs, -1, 0).value;
    StraightPicksShape(cards, i, fs);
  }

  /** Overwriting the last three picks of a pair leaves the pair and the three new positions. */
  lemma TwoPairPicks(idx: nat, o: nat, fifth: nat)
    ensures MatchPicks(2, idx)[2 := o][3 := o + 1][4 := fifth] == [idx, idx + 1, o, o + 1, fifth]
  {
  }

  /** The group at MatchIdx fits the hand and has at most four cards. */
  lemma MatchFits(cards: seq<Card>)
    requires Evaluable(cards) && SortedByValue(cards)
    ensures Kind(cards) <= 4 && MatchIdx(cards) + Kind(cards) <= |cards|
  {
    MatchGroup(cards);
  }

  /** An element of s that no element exceeds is the maximum. */
  lemma MaxUnique(s: seq<nat>, m: nat)
    requires m in s && forall i :: 0 <= i < |s| ==> s[i] <= m
    ensures m == MaxOf(s)
  {
    var a :| 0 <= a < |s| && s[a] == MaxOf(s);
    var b :| 0 <= b < |s| && s[b] == m;
  }

  /** A position holding x with no x before it is the first position of x. */
  lemma FirstIndexUnique(s: seq<nat>, x: nat, r: nat)
    requires r < |s| && s[r] == x && forall j :: 0 <= j < r ==> s[j] != x
    ensures r == FirstIndexOf(s, x)
  {
  }

  /** The result of find_secondary_pair is the one SecondaryPairFrom describes. */
  lemma SecondaryPairUnique(cards: seq<Card>, counts: seq<nat>, v: nat, r: int)
    requires |counts| == |cards| && -1 <= r < |cards|
    requires r == -1 <==> forall i :: 0 <= i < |cards| ==> !OtherPair(cards, counts, v, i)
    requires r >= 0 ==> OtherPair(cards, counts, v, r) && forall i :: 0 <= i < r ==> !OtherPair(cards, counts, v, i)
    ensures r == SecondaryPairFrom(cards, counts, v, 0)
  {
  }

  // ---------------------------------------------------------------------------
  // evaluate_hand

  /**
   * evaluate_hand on a hand sorted by value: the evaluation EvalSpec
   * describes, found with the counting, searching and copying helpers.
   */
  method EvaluateHand(cards: seq<Card>) returns (ans: HandEval)
    requires Evaluable(cards) && SortedByValue(cards)
    ensures ans == EvalSpec(cards)
  {
    var fs := FlushSuit(cards);
    FlushSuitOfSpec(cards);
    MatchFits(cards);
    EvalSpecDecides(cards);
    DecideCases(fs, StraightFlushOf(cards), FlushOf(cards), BestStraightSpec(cards, NUM_SUITS),
                Kind(cards), MatchIdx(cards), OtherIdx(cards));
    if fs != NUM_SUITS {
      var sf := FindBestStraight(cards, fs);
      if sf.Some? {
        return HandEval(StraightFlush, sf.value);
      }
    }
    ans := EvaluateMatches(cards, fs);
  }

  /** evaluate_hand once there is no straight flush: the match counts decide, then the flush down. */
  method EvaluateMatches(cards: seq<Card>, fs: nat) returns (ans: HandEval)
    requires Evaluable(cards) && SortedByValue(cards) && fs == FlushSuitOf(cards)
    ensures ans == Decide(fs, None, FlushOf(cards), BestStraightSpec(cards, NUM_SUITS), Kind(cards), MatchIdx(cards), OtherIdx(cards))
  {
    var nOfAKind, matchIdx, otherPairIdx := FindGroups(cards);
    DecideCases(fs, None, FlushOf(cards), BestStraightSpec(cards, NUM_SUITS), nOfAKind, matchIdx, otherPairIdx);
    if nOfAKind == 4 {
      ans := BuildHandFromMatch(cards, 4, FourOfAKind, matchIdx);
    } else if nOfAKind == 3 && otherPairIdx >= 0 {
      var pairIdx: nat := otherPairIdx;
      ans := BuildHandFromMatch(cards, 3, FullHouse, matchIdx);
      ans := ans.(picks := ans.picks[3 := pairIdx][4 := pairIdx + 1]);
    } else {
      ans := EvaluateFlushDown(cards, fs, nOfAKind, matchIdx, otherPairIdx);
    }
  }

  /**
   * The branches of evaluate_hand from the flush down, once there is no
   * straight flush, four of a kind or full house.
   */
  method EvaluateFlushDown(cards: seq<Card>, fs: nat, nOfAKind: nat, matchIdx: nat, otherPairIdx: int) returns (ans: HandEval)
    requires Evaluable(cards) && SortedByValue(cards) && fs == FlushSuitOf(cards)
    requires nOfAKind == Kind(cards) && matchIdx == MatchIdx(cards) && otherPairIdx == OtherIdx(cards)
    requires nOfAKind <= 4 && matchIdx + nOfAKind <= |cards| && nOfAKind != 4
    requires !(nOfAKind == 3 && otherPairIdx >= 0)
    ensures ans == Decide(fs, None, FlushOf(cards), BestStraightSpec(cards, NUM_SUITS), nOfAKind, matchIdx, otherPairIdx)
  {
    FlushSuitOfSpec(cards);
    DecideCases(fs, None, FlushOf(cards), BestStraightSpec(cards, NUM_SUITS), nOfAKind, matchIdx, otherPairIdx);
    if fs != NUM_SUITS {
      var picks := CopyFlush(cards, fs);
      ans := HandEval(Flush, picks);
    } else {
      var st := FindBestStraight(cards, NUM_SUITS);
      if st.Some? {
        ans := HandEval(Straight, st.value);
      } else {
        ans := EvaluateGroups(cards, nOfAKind, matchIdx, otherPairIdx);
      }
    }
  }

  /**
   * The counting part of evaluate_hand: the match counts, the largest of
   * them, its first position and the start of a second pair (or -1).
   */
  method FindGroups(cards: seq<Card>) returns (nOfAKind: nat, matchIdx: nat, otherPairIdx: int)
    requires Evaluable(cards) && SortedByValue(cards)
    ensures nOfAKind == Kind(cards) && matchIdx == MatchIdx(cards) && otherPairIdx == OtherIdx(cards)
    ensures nOfAKind <= 4 && matchIdx + nOfAKind <= |cards|
  {
    var matchCounts := GetMatchCounts(cards);
    assert matchCounts == Counts(cards);
    nOfAKind := GetLargestElement(matchCounts, |cards|);
    assert matchCounts[..|cards|] == matchCounts;
    MaxUnique(matchCounts, nOfAKind);
    MatchFits(cards);
    matchIdx := GetMatchIndex(matchCounts, |cards|, nOfAKind);
    FirstIndexUnique(matchCounts, nOfAKind, matchIdx);
    otherPairIdx := FindSecondaryPair(cards, matchCounts, matchIdx);
    SecondaryPairUnique(cards, matchCounts, cards[matchIdx].value, otherPairIdx);
  }

  /**
   * The last branches of evaluate_hand, once there is no straight flush,
   * four of a kind, full house, flush or straight: three of a kind, two pair
   * (with the fifth card chosen as the highest card in neither pair), pair,
   * nothing.
   */
  method EvaluateGroups(cards: seq<Card>, nOfAKind: nat, matchIdx: nat, otherPairIdx: int) returns (ans: HandEval)
    requires Evaluable(cards) && SortedByValue(cards)
    requires nOfAKind == Kind(cards) && matchIdx == MatchIdx(cards) && otherPairIdx == OtherIdx(cards)
    requires nOfAKind <= 4 && matchIdx + nOfAKind <= |cards| && nOfAKind != 4
    requires !(nOfAKind == 3 && otherPairIdx >= 0)
    ensures ans == Decide(NUM_SUITS, None, [], None, nOfAKind, matchIdx, otherPairIdx)
  {
    if nOfAKind == 3 {
      ans := BuildHandFromMatch(cards, 3, ThreeOfAKind, matchIdx);
    } else if otherPairIdx >= 0 {
      TwoPairValues(cards);
      ans := BuildTwoPair(cards, matchIdx, otherPairIdx);
    } else if nOfAKind == 2 {
      ans := BuildHandFromMatch(cards, 2, Pair, matchIdx);
    } else {
      ans := BuildHandFromMatch(cards, 0, Nothing, 0);
    }
  }

  /**
   * The two pair branch of evaluate_hand: the first pair, the second pair,
   * and as fifth card the first card in neither (position 0 when the first
   * pair does not start the hand, else 2 when the second pair does not
   * follow it, else 4).
   */
  method BuildTwoPair(cards: seq<Card>, matchIdx: nat, pairIdx: nat) returns (ans: HandEval)
    requires |cards| >= 5 && matchIdx + 2 <= pairIdx && pairIdx + 1 < |cards|
    ensures ans == HandEval(TwoPair, [matchIdx, matchIdx + 1, pairIdx, pairIdx + 1, TwoPairKicker(matchIdx, pairIdx)])
  {
    ans := BuildHandFromMatch(cards, 2, TwoPair, matchIdx);
    var fifth: nat := if matchIdx > 0 then 0 else if pairIdx > 2 then 2 else 4;
    TwoPairPicks(matchIdx, pairIdx, fifth);
    ans := ans.(picks := ans.picks[2 := pairIdx][3 := pairIdx + 1][4 := fifth]);
  }

  // ---------------------------------------------------------------------------
  // What an evaluation says about the hand

  /** Five consecutive descending values, or the wheel 5 4 3 2 A. */
  predicate StraightValues(vals: seq<nat>)
    requires |vals| == 5
  {
    (forall k :: 0 <= k < 5 ==> vals[k] + k == vals[0]) || vals == [5, 4, 3, 2, VALUE_ACE]
  }

  /** The straight the corrected scan returns: five cards of straight values and suitable suits. */
  lemma BestStraightShape(cards: seq<Card>, fs: nat)
    requires SortedByValue(cards) && BestStraightSpec(cards, fs).Some?
    ensures ValidPicks(cards, BestStraightSpec(cards, fs).value)
    ensures StraightValues(PickValues(cards, BestStraightSpec(cards, fs).value))
    ensures forall k :: 0 <= k < 5 ==> SuitOk(cards[BestStraightSpec(cards, fs).value[k]], fs)
  {
    var i := if ScanStraight(cards, fs, 1, 0).Some? then ScanStraight(cards, fs, 1, 0).value
             else ScanStraight(cards, fs, -1, 0).value;
    StraightPicksShape(cards, i, fs);
    var vals := PickValues(cards, BestStraightSpec(cards, fs).value);
    if StraightAt(cards, i, fs) == -1 {
      assert vals == [5, 4, 3, 2, VALUE_ACE];
    }
  }

  /**
   * A straight flush is five cards of the flush suit with straight values;
   * a straight is five cards with straight values.
   */
  lemma EvalStraightShape(cards: seq<Card>)
    requires Evaluable(cards) && SortedByValue(cards)
    requires EvalSpec(cards).ranking == StraightFlush || EvalSpec(cards).ranking == Straight
    ensures ValidPicks(cards, EvalSpec(cards).picks)
    ensures StraightValues(PickValues(cards, EvalSpec(cards).picks))
    ensures EvalSpec(cards).ranking == StraightFlush ==>
              FlushSuitOf(cards) < NUM_SUITS &&
              forall k :: 0 <= k < 5 ==> cards[EvalSpec(cards).picks[k]].suit == FlushSuitOf(cards)
  {
    EvalOutcome(cards);
    if EvalSpec(cards).ranking == StraightFlush {
      BestStraightShape(cards, FlushSuitOf(cards));
    } else {
      BestStraightShape(cards, NUM_SUITS);
    }
  }

  /** A flush is the five highest cards of the flush suit. */
  lemma EvalFlushShape(cards: seq<Card>)
    requires Evaluable(cards) && SortedByValue(cards) && EvalSpec(cards).ranking == Flush
    ensures FlushSuitOf(cards) < NUM_SUITS
    ensures ValidPicks(cards, EvalSpec(cards).picks)
    ensures forall k :: 0 <= k < 5 ==> cards[EvalSpec(cards).picks[k]].suit == FlushSuitOf(cards)
    ensures forall p :: 0 <= p < |cards| && cards[p].suit == FlushSuitOf(cards) && p !in EvalSpec(cards).picks ==>
              forall k :: 0 <= k < 5 ==> cards[EvalSpec(cards).picks[k]].value >= cards[p].value
  {
    EvalOutcome(cards);
    FlushSuitOfSpec(cards);
    FlushPicksShape(cards, FlushSuitOf(cards));
  }

  /** The picks of a group evaluation: the whole group at idx, then the highest other cards. */
  lemma GroupPicks(cards: seq<Card>, picks: seq<nat>)
    requires Evaluable(cards) && SortedByValue(cards)
    requires picks == MatchPicks(Kind(cards), MatchIdx(cards))
    ensures ValidPicks(cards, picks)
    ensures forall k :: 0 <= k < Kind(cards) ==> cards[picks[k]].value == cards[MatchIdx(cards)].value
    ensures forall k :: Kind(cards) <= k < 5 ==> cards[picks[k]].value != cards[MatchIdx(cards)].value
    ensures forall p :: 0 <= p < |cards| && p !in picks ==> cards[p].value <= cards[picks[4]].value
  {
    MatchGroup(cards);
    GroupSummary(cards, Kind(cards), MatchIdx(cards), picks);
  }

  /** The group facts, stated on the group's size and position alone. */
  lemma GroupSummary(cards: seq<Card>, n: nat, idx: nat, picks: seq<nat>)
    requires SortedByValue(cards) && |cards| >= 5 && n <= 4 && idx + n <= |cards| && idx < |cards|
    requires picks == MatchPicks(n, idx)
    requires forall k :: 0 <= k < |cards| ==> (cards[k].value == cards[idx].value <==> idx <= k < idx + n)
    ensures ValidPicks(cards, picks)
    ensures forall k :: 0 <= k < n ==> cards[picks[k]].value == cards[idx].value
    ensures forall k :: n <= k < 5 ==> cards[picks[k]].value != cards[idx].value
    ensures forall p :: 0 <= p < |cards| && p !in picks ==> cards[p].value <= cards[picks[4]].value
  {
    MatchPicksShape(cards, n, idx);
    forall q | idx <= q < idx + n
      ensures q in picks
    {
      assert picks[q - idx] == q;
    }
    forall p | 0 <= p < |cards| && p !in picks
      ensures cards[p].value <= cards[picks[4]].value
    {
      MatchKickersHighest(cards, n, idx, p);
    }
  }

  /** Without a second pair, the cards after the group hold different values. */
  lemma KickersDistinct(cards: seq<Card>, picks: seq<nat>)
    requires Evaluable(cards) && SortedByValue(cards) && OtherIdx(cards) < 0
    requires picks == MatchPicks(Kind(cards), MatchIdx(cards))
    ensures forall a, b :: Kind(cards) <= a < b < 5 ==> cards[picks[a]].value != cards[picks[b]].value
  {
    GroupPicks(cards, picks);
    var counts := Counts(cards);
    var v := cards[MatchIdx(cards)].value;
    forall a, b | Kind(cards) <= a < b < 5
      ensures cards[picks[a]].value != cards[picks[b]].value
    {
      assert !OtherPair(cards, counts, v, picks[a]);
      assert !OtherPair(cards, counts, v, picks[b]);
      var lo := if picks[a] < picks[b] then picks[a] else picks[b];
      var hi := if picks[a] < picks[b] then picks[b] else picks[a];
      if cards[lo].value == cards[hi].value {
        SameValueCount(cards, lo, hi);
      }
    }
  }

  /**
   * Four of a kind: the four cards of the value held four times, then the
   * highest other card.
   */
  lemma EvalFourShape(cards: seq<Card>)
    requires Evaluable(cards) && SortedByValue(cards) && EvalSpec(cards).ranking == FourOfAKind
    ensures ValidPicks(cards, EvalSpec(cards).picks)
    ensures ValueCount(cards, PickValues(cards, EvalSpec(cards).picks)[0]) == 4
    ensures forall k :: 0 <= k < 4 ==> PickValues(cards, EvalSpec(cards).picks)[k] == PickValues(cards, EvalSpec(cards).picks)[0]
    ensures PickValues(cards, EvalSpec(cards).picks)[4] != PickValues(cards, EvalSpec(cards).picks)[0]
    ensures forall p :: 0 <= p < |cards| && p !in EvalSpec(cards).picks ==>
              cards[p].value <= PickValues(cards, EvalSpec(cards).picks)[4]
  {
    EvalOutcome(cards);
    MatchGroup(cards);
    GroupPicks(cards, EvalSpec(cards).picks);
  }

  /**
   * Three of a kind: the three cards of the value held three times, then
   * the two highest other cards, of two different values.
   */
  lemma EvalThreeShape(cards: seq<Card>)
    requires Evaluable(cards) && SortedByValue(cards) && EvalSpec(cards).ranking == ThreeOfAKind
    ensures ValidPicks(cards, EvalSpec(cards).picks)
    ensures ValueCount(cards, PickValues(cards, EvalSpec(cards).picks)[0]) == 3
    ensures forall k :: 0 <= k < 3 ==> PickValues(cards, EvalSpec(cards).picks)[k] == PickValues(cards, EvalSpec(cards).picks)[0]
    ensures forall k :: 3 <= k < 5 ==> PickValues(cards, EvalSpec(cards).picks)[k] != PickValues(cards, EvalSpec(cards).picks)[0]
    ensures PickValues(cards, EvalSpec(cards).picks)[3] != PickValues(cards, EvalSpec(cards).picks)[4]
    ensures forall p :: 0 <= p < |cards| && p !in EvalSpec(cards).picks ==>
              cards[p].value <= PickValues(cards, EvalSpec(cards).picks)[4]
  {
    EvalOutcome(cards);
    MatchGroup(cards);
    GroupPicks(cards, EvalSpec(cards).picks);
    KickersDistinct(cards, EvalSpec(cards).picks);
  }

  /**
   * One pair: the two cards of the value held twice, then the three highest
   * other cards, of three different values.
   */
  lemma EvalPairShape(cards: seq<Card>)
    requires Evaluable(cards) && SortedByValue(cards) && EvalSpec(cards).ranking == Pair
    ensures ValidPicks(cards, EvalSpec(cards).picks)
    ensures ValueCount(cards, PickValues(cards, EvalSpec(cards).picks)[0]) == 2
    ensures PickValues(cards, EvalSpec(cards).picks)[1] == PickValues(cards, EvalSpec(cards).picks)[0]
    ensures forall k :: 2 <= k < 5 ==> PickValues(cards, EvalSpec(cards).picks)[k] != PickValues(cards, EvalSpec(cards).picks)[0]
    ensures forall a, b :: 2 <= a < b < 5 ==> PickValues(cards, EvalSpec(cards).picks)[a] != PickValues(cards, EvalSpec(cards).picks)[b]
    ensures forall p :: 0 <= p < |cards| && p !in EvalSpec(cards).picks ==>
              cards[p].value <= PickValues(cards, EvalSpec(cards).picks)[4]
  {
    EvalOutcome(cards);
    MatchGroup(cards);
    GroupPicks(cards, EvalSpec(cards).picks);
    KickersDistinct(cards, EvalSpec(cards).picks);
  }

  /** Nothing: the five highest cards, all of different values. */
  lemma EvalNothingShape(cards: seq<Card>)
    requires Evaluable(cards) && SortedByValue(cards) && EvalSpec(cards).ranking == Nothing
    ensures EvalSpec(cards).picks == [0, 1, 2, 3, 4]
    ensures forall k :: 0 <= k < |cards| ==> ValueCount(cards, cards[k].value) == 1
    ensures forall a, b :: 0 <= a < b < 5 ==> cards[a].value > cards[b].value
  {
    NothingCase(cards);
    MatchGroup(cards);
    forall k | 0 <= k < |cards|
      ensures ValueCount(cards, cards[k].value) == 1
    {
      CountPositive(cards, k);
    }
    forall a, b | 0 <= a < b < 5
      ensures cards[a].value > cards[b].value
    {
      SingleValue(cards, a, b);
    }
  }

  lemma NothingCase(cards: seq<Card>)
    requires Evaluable(cards) && SortedByValue(cards) && EvalSpec(cards).ranking == Nothing
    ensures Kind(cards) <= 1 && EvalSpec(cards).picks == [0, 1, 2, 3, 4]
  {
    EvalOutcome(cards);
    assert MatchPicks(0, 0) == [0, 1, 2, 3, 4];
  }

  /** A position starting a pair of another value lies at or after the second group. */
  lemma OtherIdxFirst(cards: seq<Card>, p: nat)
    requires Evaluable(cards) && SortedByValue(cards) && p < |cards|
    requires cards[p].value != cards[MatchIdx(cards)].value && ValueCount(cards, cards[p].value) >= 2
    ensures OtherIdx(cards) >= 0 && cards[p].value <= cards[OtherIdx(cards)].value
  {
    var counts := Counts(cards);
    var v := cards[MatchIdx(cards)].value;
    assert OtherPair(cards, counts, v, p);
    var o := SecondaryPairFrom(cards, counts, v, 0);
    assert o == OtherIdx(cards);
    assert 0 <= o <= p;
  }

  /**
   * A full house: three cards of the value held three times, then two of
   * the highest other value held at least twice.
   */
  lemma EvalFullHouseShape(cards: seq<Card>)
    requires Evaluable(cards) && SortedByValue(cards) && EvalSpec(cards).ranking == FullHouse
    ensures ValidPicks(cards, EvalSpec(cards).picks)
    ensures ValueCount(cards, PickValues(cards, EvalSpec(cards).picks)[0]) == 3
    ensures forall k :: 0 <= k < 3 ==> PickValues(cards, EvalSpec(cards).picks)[k] == PickValues(cards, EvalSpec(cards).picks)[0]
    ensures PickValues(cards, EvalSpec(cards).picks)[3] == PickValues(cards, EvalSpec(cards).picks)[4]
    ensures PickValues(cards, EvalSpec(cards).picks)[3] != PickValues(cards, EvalSpec(cards).picks)[0]
    ensures ValueCount(cards, PickValues(cards, EvalSpec(cards).picks)[3]) >= 2
    ensures forall p ::
              (0 <= p < |cards| && cards[p].value != PickValues(cards, EvalSpec(cards).picks)[0] &&
               ValueCount(cards, cards[p].value) >= 2) ==> cards[p].value <= PickValues(cards, EvalSpec(cards).picks)[3]
  {
    FullHouseCase(cards);
    FullHousePicks(cards, EvalSpec(cards).picks);
  }

  lemma FullHouseCase(cards: seq<Card>)
    requires Evaluable(cards) && SortedByValue(cards) && EvalSpec(cards).ranking == FullHouse
    ensures Kind(cards) == 3 && OtherIdx(cards) >= 0
    ensures EvalSpec(cards).picks == MatchPicks(3, MatchIdx(cards))[3 := OtherIdx(cards)][4 := OtherIdx(cards) + 1]
  {
    EvalOutcome(cards);
  }

  lemma FullHousePicks(cards: seq<Card>, picks: seq<nat>)
    requires Evaluable(cards) && SortedByValue(cards) && Kind(cards) == 3 && OtherIdx(cards) >= 0
    requires picks == MatchPicks(3, MatchIdx(cards))[3 := OtherIdx(cards)][4 := OtherIdx(cards) + 1]
    ensures ValidPicks(cards, picks)
    ensures ValueCount(cards, PickValues(cards, picks)[0]) == 3
    ensures forall k :: 0 <= k < 3 ==> PickValues(cards, picks)[k] == PickValues(cards, picks)[0]
    ensures PickValues(cards, picks)[3] == PickValues(cards, picks)[4]
    ensures PickValues(cards, picks)[3] != PickValues(cards, picks)[0]
    ensures ValueCount(cards, PickValues(cards, picks)[3]) >= 2
    ensures forall p ::
              (0 <= p < |cards| && cards[p].value != PickValues(cards, picks)[0] &&
               ValueCount(cards, cards[p].value) >= 2) ==> cards[p].value <= PickValues(cards, picks)[3]
  {
    MatchGroup(cards);
    OtherGroup(cards);
    var idx := MatchIdx(cards);
    var o: nat := OtherIdx(cards);
    FullHousePicksList(idx, o);
    assert cards[idx + 1].value == cards[idx].value && cards[idx + 2].value == cards[idx].value;
    forall p | 0 <= p < |cards| && cards[p].value != cards[idx].value && ValueCount(cards, cards[p].value) >= 2
      ensures cards[p].value <= cards[o].value
    {
      OtherIdxFirst(cards, p);
    }
    FullHouseSummary(cards, idx, o, picks);
  }

  /** Overwriting the last two picks of three of a kind leaves the three and the pair. */
  lemma FullHousePicksList(idx: nat, o: nat)
    ensures MatchPicks(3, idx)[3 := o][4 := o + 1] == [idx, idx + 1, idx + 2, o, o + 1]
  {
  }

  /** The full house facts, stated on the positions alone. */
  lemma FullHouseSummary(cards: seq<Card>, idx: nat, o: nat, picks: seq<nat>)
    requires picks == [idx, idx + 1, idx + 2, o, o + 1]
    requires idx + 3 <= |cards| && o + 1 < |cards| && (idx + 3 <= o || o + 2 <= idx)
    requires cards[idx + 1].value == cards[idx].value && cards[idx + 2].value == cards[idx].value
    requires cards[o + 1].value == cards[o].value && cards[o].value != cards[idx].value
    requires ValueCount(cards, cards[idx].value) == 3 && ValueCount(cards, cards[o].value) >= 2
    requires forall p :: 0 <= p < |cards| && cards[p].value != cards[idx].value && ValueCount(cards, cards[p].value) >= 2 ==>
               cards[p].value <= cards[o].value
    ensures ValidPicks(cards, picks)
    ensures ValueCount(cards, PickValues(cards, picks)[0]) == 3
    ensures forall k :: 0 <= k < 3 ==> PickValues(cards, picks)[k] == PickValues(cards, picks)[0]
    ensures PickValues(cards, picks)[3] == PickValues(cards, picks)[4]
    ensures PickValues(cards, picks)[3] != PickValues(cards, picks)[0]
    ensures ValueCount(cards, PickValues(cards, picks)[3]) >= 2
    ensures forall p ::
              (0 <= p < |cards| && cards[p].value != PickValues(cards, picks)[0] &&
               ValueCount(cards, cards[p].value) >= 2) ==> cards[p].value <= PickValues(cards, picks)[3]
  {
    ValidFive(cards, idx, idx + 1, idx + 2, o, o + 1);
    var vals := PickValues(cards, picks);
    assert vals[0] == cards[idx].value && vals[1] == cards[idx + 1].value && vals[2] == cards[idx + 2].value;
    assert vals[3] == cards[o].value && vals[4] == cards[o + 1].value;
  }

  /** The fifth card of two pair is in neither pair and no lower than any card left out. */
  lemma TwoPairKickerShape(cards: seq<Card>)
    requires Evaluable(cards) && SortedByValue(cards) && OtherIdx(cards) >= 0 && Kind(cards) <= 2
    ensures TwoPairKicker(MatchIdx(cards), OtherIdx(cards)) < |cards|
    ensures cards[TwoPairKicker(MatchIdx(cards), OtherIdx(cards))].value != cards[MatchIdx(cards)].value
    ensures cards[TwoPairKicker(MatchIdx(cards), OtherIdx(cards))].value != cards[OtherIdx(cards)].value
    ensures forall p :: 0 <= p < |cards| && p !in [MatchIdx(cards), MatchIdx(cards) + 1, OtherIdx(cards), OtherIdx(cards) + 1] ==>
              p == TwoPairKicker(MatchIdx(cards), OtherIdx(cards)) ||
              cards[p].value <= cards[TwoPairKicker(MatchIdx(cards), OtherIdx(cards))].value
  {
    MatchGroup(cards);
    OtherGroup(cards);
    TwoPairGroups(cards);
    var idx := MatchIdx(cards);
    var o := OtherIdx(cards);
    if idx == 0 && o > 2 {
      assert !OtherPair(cards, Counts(cards), cards[idx].value, 2);
      SingleValue(cards, 2, o);
    }
  }

  /**
   * Two pair: the higher pair, the lower pair (the highest pairs of the
   * hand) and the highest card in neither.
   */
  lemma EvalTwoPairShape(cards: seq<Card>)
    requires Evaluable(cards) && SortedByValue(cards) && EvalSpec(cards).ranking == TwoPair
    ensures ValidPicks(cards, EvalSpec(cards).picks)
    ensures PickValues(cards, EvalSpec(cards).picks)[1] == PickValues(cards, EvalSpec(cards).picks)[0]
    ensures PickValues(cards, EvalSpec(cards).picks)[3] == PickValues(cards, EvalSpec(cards).picks)[2]
    ensures PickValues(cards, EvalSpec(cards).picks)[0] > PickValues(cards, EvalSpec(cards).picks)[2]
    ensures ValueCount(cards, PickValues(cards, EvalSpec(cards).picks)[0]) == 2
    ensures ValueCount(cards, PickValues(cards, EvalSpec(cards).picks)[2]) == 2
    ensures PickValues(cards, EvalSpec(cards).picks)[4] != PickValues(cards, EvalSpec(cards).picks)[0]
    ensures PickValues(cards, EvalSpec(cards).picks)[4] != PickValues(cards, EvalSpec(cards).picks)[2]
    ensures forall p ::
              (0 <= p < |cards| && cards[p].value != PickValues(cards, EvalSpec(cards).picks)[0] &&
               ValueCount(cards, cards[p].value) >= 2) ==> cards[p].value <= PickValues(cards, EvalSpec(cards).picks)[2]
    ensures forall p :: 0 <= p < |cards| && p !in EvalSpec(cards).picks ==>
              cards[p].value <= PickValues(cards, EvalSpec(cards).picks)[4]
  {
    TwoPairCase(cards);
    TwoPairPicksShape(cards, EvalSpec(cards).picks);
  }

  lemma TwoPairPicksShape(cards: seq<Card>, picks: seq<nat>)
    requires Evaluable(cards) && SortedByValue(cards) && OtherIdx(cards) >= 0 && Kind(cards) <= 2
    requires picks == [MatchIdx(cards), MatchIdx(cards) + 1, OtherIdx(cards), OtherIdx(cards) + 1,
                       TwoPairKicker(MatchIdx(cards), OtherIdx(cards))]
    ensures ValidPicks(cards, picks)
    ensures PickValues(cards, picks)[1] == PickValues(cards, picks)[0]
    ensures PickValues(cards, picks)[3] == PickValues(cards, picks)[2]
    ensures PickValues(cards, picks)[0] > PickValues(cards, picks)[2]
    ensures ValueCount(cards, PickValues(cards, picks)[0]) == 2
    ensures ValueCount(cards, PickValues(cards, picks)[2]) == 2
    ensures PickValues(cards, picks)[4] != PickValues(cards, picks)[0]
    ensures PickValues(cards, picks)[4] != PickValues(cards, picks)[2]
    ensures forall p ::
              (0 <= p < |cards| && cards[p].value != PickValues(cards, picks)[0] &&
               ValueCount(cards, cards[p].value) >= 2) ==> cards[p].value <= PickValues(cards, picks)[2]
    ensures forall p :: 0 <= p < |cards| && p !in picks ==>
              cards[p].value <= PickValues(cards, picks)[4]
  {
    var idx := MatchIdx(cards);
    var o := OtherIdx(cards);
    var kicker := TwoPairKicker(idx, o);
    TwoPairValues(cards);
    TwoPairKickerShape(cards);
    forall p | 0 <= p < |cards| && cards[p].value != cards[idx].value && ValueCount(cards, cards[p].value) >= 2
      ensures cards[p].value <= cards[o].value
    {
      OtherIdxFirst(cards, p);
    }
    TwoPairSummary(cards, idx, o, kicker, picks);
  }

  /** The two-pair facts, stated on the positions alone. */
  lemma TwoPairSummary(cards: seq<Card>, idx: nat, o: nat, kicker: nat, picks: seq<nat>)
    requires picks == [idx, idx + 1, o, o + 1, kicker]
    requires idx + 2 <= o && o + 1 < |cards| && kicker < |cards|
    requires cards[idx + 1].value == cards[idx].value && cards[o + 1].value == cards[o].value
    requires cards[idx].value > cards[o].value
    requires ValueCount(cards, cards[idx].value) == 2 && ValueCount(cards, cards[o].value) == 2
    requires cards[kicker].value != cards[idx].value && cards[kicker].value != cards[o].value
    requires forall p :: 0 <= p < |cards| && cards[p].value != cards[idx].value && ValueCount(cards, cards[p].value) >= 2 ==>
               cards[p].value <= cards[o].value
    requires forall p :: 0 <= p < |cards| && p !in [idx, idx + 1, o, o + 1] ==>
               p == kicker || cards[p].value <= cards[kicker].value
    ensures ValidPicks(cards, picks)
    ensures PickValues(cards, picks)[1] == PickValues(cards, picks)[0]
    ensures PickValues(cards, picks)[3] == PickValues(cards, picks)[2]
    ensures PickValues(cards, picks)[0] > PickValues(cards, picks)[2]
    ensures ValueCount(cards, PickValues(cards, picks)[0]) == 2
    ensures ValueCount(cards, PickValues(cards, picks)[2]) == 2
    ensures PickValues(cards, picks)[4] != PickValues(cards, picks)[0]
    ensures PickValues(cards, picks)[4] != PickValues(cards, picks)[2]
    ensures forall p ::
              (0 <= p < |cards| && cards[p].value != PickValues(cards, picks)[0] &&
               ValueCount(cards, cards[p].value) >= 2) ==> cards[p].value <= PickValues(cards, picks)[2]
    ensures forall p :: 0 <= p < |cards| && p !in picks ==>
              cards[p].value <= PickValues(cards, picks)[4]
  {
    assert picks[0] == idx && picks[1] == idx + 1 && picks[2] == o && picks[3] == o + 1 && picks[4] == kicker;
    assert kicker != idx && kicker != idx + 1 && kicker != o && kicker != o + 1;
    ValidFive(cards, idx, idx + 1, o, o + 1, kicker);
    var vals := PickValues(cards, picks);
    assert vals[0] == cards[idx].value && vals[1] == cards[idx + 1].value;
    assert vals[2] == cards[o].value && vals[3] == cards[o + 1].value && vals[4] == cards[kicker].value;
    forall p | 0 <= p < |cards| && p !in picks
      ensures cards[p].value <= cards[kicker].value
    {
      assert p !in [idx, idx + 1, o, o + 1];
    }
  }

  lemma TwoPairValues(cards: seq<Card>)
    requires Evaluable(cards) && SortedByValue(cards) && OtherIdx(cards) >= 0 && Kind(cards) <= 2
    ensures MatchIdx(cards) + 2 <= OtherIdx(cards) && OtherIdx(cards) + 1 < |cards|
    ensures cards[MatchIdx(cards) + 1].value == cards[MatchIdx(cards)].value
    ensures cards[OtherIdx(cards) + 1].value == cards[OtherIdx(cards)].value
    ensures cards[MatchIdx(cards)].value > cards[OtherIdx(cards)].value
    ensures ValueCount(cards, cards[MatchIdx(cards)].value) == 2
    ensures ValueCount(cards, cards[OtherIdx(cards)].value) == 2
  {
    MatchGroup(cards);
    OtherGroup(cards);
    TwoPairGroups(cards);
  }

  lemma TwoPairCase(cards: seq<Card>)
    requires Evaluable(cards) && SortedByValue(cards) && EvalSpec(cards).ranking == TwoPair
    ensures OtherIdx(cards) >= 0 && Kind(cards) <= 2
    ensures EvalSpec(cards).picks ==
            [MatchIdx(cards), MatchIdx(cards) + 1, OtherIdx(cards), OtherIdx(cards) + 1,
             TwoPairKicker(MatchIdx(cards), OtherIdx(cards))]
  {
    EvalOutcome(cards);
  }

  // ---------------------------------------------------------------------------
  // How the ranking follows from the hand

  /** A straight flush is reported exactly when the flush suit holds a straight. */
  lemma EvalStraightFlushIff(cards: seq<Card>)
    requires Evaluable(cards) && SortedByValue(cards)
    ensures EvalSpec(cards).ranking == StraightFlush <==>
            FlushSuitOf(cards) < NUM_SUITS &&
            exists j :: 0 <= j < |cards| && StraightAt(cards, j, FlushSuitOf(cards)) != 0
  {
    FlushSuitOfSpec(cards);
    BestStraightFinds(cards, FlushSuitOf(cards));
    EvalRanking(cards);
  }

  /**
   * In a hand of at most nine cards only one suit can hold five, so it is
   * the suit flush_suit reports, and a straight in any suit makes the hand
   * a straight flush.
   */
  lemma EvalAtLeastStraightFlush(cards: seq<Card>, j: nat, suit: nat)
    requires Evaluable(cards) && SortedByValue(cards) && |cards| <= 9
    requires suit < NUM_SUITS && j < |cards| && StraightAt(cards, j, suit) != 0
    ensures FlushSuitOf(cards) == suit
    ensures EvalSpec(cards).ranking == StraightFlush
  {
    StraightPicksShape(cards, j, suit);
    var p := StraightPicks(cards, j, suit);
    var ps := {p[0], p[1], p[2], p[3], p[4]};
    assert |ps| == 5;
    SuitCountAtLeast(cards, suit, ps);
    FlushSuitOfSpec(cards);
    if FlushSuitOf(cards) != suit {
      TwoSuitCounts(cards, suit, FlushSuitOf(cards));
    }
    EvalStraightFlushIff(cards);
  }

  /** Where each finding of evaluate_hand's helpers puts the ranking, decided on the findings alone. */
  lemma DecideRanking(fs: nat, sf: Option<seq<nat>>, flush: seq<nat>, st: Option<seq<nat>>, n: nat, idx: nat, o: int)
    requires n <= 4
    ensures Decide(fs, sf, flush, st, n, idx, o).ranking == StraightFlush <==> fs != NUM_SUITS && sf.Some?
    ensures n == 4 ==> Decide(fs, sf, flush, st, n, idx, o).ranking.Num() <= FourOfAKind.Num()
    ensures n >= 3 ==> Decide(fs, sf, flush, st, n, idx, o).ranking.Num() <= ThreeOfAKind.Num()
    ensures fs != NUM_SUITS ==> Decide(fs, sf, flush, st, n, idx, o).ranking.Num() <= Flush.Num()
    ensures st.Some? ==> Decide(fs, sf, flush, st, n, idx, o).ranking.Num() <= Straight.Num()
    ensures n >= 2 || o >= 0 ==> Decide(fs, sf, flush, st, n, idx, o).ranking.Num() <= Pair.Num()
    ensures Decide(fs, sf, flush, st, n, idx, o).ranking == Nothing <==>
              fs == NUM_SUITS && st.None? && n <= 1 && o < 0
  {
  }

  /** evaluate_hand's findings on a hand, as Decide takes them. */
  lemma EvalSpecDecides(cards: seq<Card>)
    requires Evaluable(cards) && SortedByValue(cards)
    ensures EvalSpec(cards) == Decide(FlushSuitOf(cards), StraightFlushOf(cards), FlushOf(cards),
                                      BestStraightSpec(cards, NUM_SUITS), Kind(cards), MatchIdx(cards), OtherIdx(cards))
  {
  }

  /** What each ranking of a hand says about its findings, and the picks that go with it. */
  lemma EvalOutcome(cards: seq<Card>)
    requires Evaluable(cards) && SortedByValue(cards)
    ensures EvalSpec(cards).ranking == StraightFlush ==>
              FlushSuitOf(cards) != NUM_SUITS && BestStraightSpec(cards, FlushSuitOf(cards)).Some? &&
              EvalSpec(cards).picks == BestStraightSpec(cards, FlushSuitOf(cards)).value
    ensures EvalSpec(cards).ranking == FourOfAKind ==> Kind(cards) == 4 && EvalSpec(cards).picks == MatchPicks(4, MatchIdx(cards))
    ensures EvalSpec(cards).ranking == FullHouse ==>
              Kind(cards) == 3 && OtherIdx(cards) >= 0 &&
              EvalSpec(cards).picks == MatchPicks(3, MatchIdx(cards))[3 := OtherIdx(cards)][4 := OtherIdx(cards) + 1]
    ensures EvalSpec(cards).ranking == Flush ==> FlushSuitOf(cards) != NUM_SUITS && EvalSpec(cards).picks == FlushOf(cards)
    ensures EvalSpec(cards).ranking == Straight ==>
              FlushSuitOf(cards) == NUM_SUITS && BestStraightSpec(cards, NUM_SUITS).Some? &&
              EvalSpec(cards).picks == BestStraightSpec(cards, NUM_SUITS).value
    ensures EvalSpec(cards).ranking == ThreeOfAKind ==> Kind(cards) == 3 && OtherIdx(cards) < 0 && EvalSpec(cards).picks == MatchPicks(3, MatchIdx(cards))
    ensures EvalSpec(cards).ranking == TwoPair ==>
              Kind(cards) <= 2 && OtherIdx(cards) >= 0 &&
              EvalSpec(cards).picks == [MatchIdx(cards), MatchIdx(cards) + 1, OtherIdx(cards), OtherIdx(cards) + 1,
                            TwoPairKicker(MatchIdx(cards), OtherIdx(cards))]
    ensures EvalSpec(cards).ranking == Pair ==> Kind(cards) == 2 && OtherIdx(cards) < 0 && EvalSpec(cards).picks == MatchPicks(2, MatchIdx(cards))
    ensures EvalSpec(cards).ranking == Nothing ==> Kind(cards) <= 1 && OtherIdx(cards) < 0 && EvalSpec(cards).picks == MatchPicks(0, 0)
  {
    MatchFits(cards);
    EvalSpecDecides(cards);
    DecideOutcome(FlushSuitOf(cards), StraightFlushOf(cards), FlushOf(cards),
                  BestStraightSpec(cards, NUM_SUITS), Kind(cards), MatchIdx(cards), OtherIdx(cards));
  }

  /** The ranking of a hand as the findings decide it. */
  lemma EvalRanking(cards: seq<Card>)
    requires Evaluable(cards) && SortedByValue(cards)
    ensures EvalSpec(cards).ranking == StraightFlush <==> FlushSuitOf(cards) != NUM_SUITS && StraightFlushOf(cards).Some?
    ensures Kind(cards) == 4 ==> EvalSpec(cards).ranking.Num() <= FourOfAKind.Num()
    ensures Kind(cards) >= 3 ==> EvalSpec(cards).ranking.Num() <= ThreeOfAKind.Num()
    ensures FlushSuitOf(cards) != NUM_SUITS ==> EvalSpec(cards).ranking.Num() <= Flush.Num()
    ensures BestStraightSpec(cards, NUM_SUITS).Some? ==> EvalSpec(cards).ranking.Num() <= Straight.Num()
    ensures Kind(cards) >= 2 || OtherIdx(cards) >= 0 ==> EvalSpec(cards).ranking.Num() <= Pair.Num()
    ensures EvalSpec(cards).ranking == Nothing <==>
              FlushSuitOf(cards) == NUM_SUITS && BestStraightSpec(cards, NUM_SUITS).None? && Kind(cards) <= 1 && OtherIdx(cards) < 0
  {
    MatchFits(cards);
    EvalSpecDecides(cards);
    DecideRanking(FlushSuitOf(cards), StraightFlushOf(cards), FlushOf(cards),
                  BestStraightSpec(cards, NUM_SUITS), Kind(cards), MatchIdx(cards), OtherIdx(cards));
  }

  /** A hand with four cards of a value ranks at least four of a kind. */
  lemma EvalAtLeastFour(cards: seq<Card>, i: nat)
    requires Evaluable(cards) && SortedByValue(cards) && i < |cards| && ValueCount(cards, cards[i].value) == 4
    ensures EvalSpec(cards).ranking.Num() <= FourOfAKind.Num()
  {
    MatchFits(cards);
    assert Counts(cards)[i] == 4;
    EvalRanking(cards);
  }

  /** A hand with three cards of a value ranks at least three of a kind. */
  lemma EvalAtLeastThree(cards: seq<Card>, i: nat)
    requires Evaluable(cards) && SortedByValue(cards) && i < |cards| && ValueCount(cards, cards[i].value) >= 3
    ensures EvalSpec(cards).ranking.Num() <= ThreeOfAKind.Num()
  {
    MatchFits(cards);
    assert Counts(cards)[i] >= 3;
    EvalRanking(cards);
  }

  /** A hand with five cards of a suit ranks at least a flush. */
  lemma EvalAtLeastFlush(cards: seq<Card>, suit: nat)
    requires Evaluable(cards) && SortedByValue(cards) && suit < NUM_SUITS && SuitCount(cards, suit) >= 5
    ensures EvalSpec(cards).ranking.Num() <= Flush.Num()
  {
    FlushSuitOfSpec(cards);
    EvalRanking(cards);
  }

  /** A hand holding a straight ranks at least a straight. */
  lemma EvalAtLeastStraight(cards: seq<Card>, j: nat)
    requires Evaluable(cards) && SortedByValue(cards) && j < |cards| && StraightAt(cards, j, NUM_SUITS) != 0
    ensures EvalSpec(cards).ranking.Num() <= Straight.Num()
  {
    BestStraightFinds(cards, NUM_SUITS);
    assert BestStraightSpec(cards, NUM_SUITS).Some?;
    EvalRanking(cards);
  }

  /** A hand with two cards of a value ranks at least one pair. */
  lemma EvalAtLeastPair(cards: seq<Card>, i: nat)
    requires Evaluable(cards) && SortedByValue(cards) && i < |cards| && ValueCount(cards, cards[i].value) >= 2
    ensures EvalSpec(cards).ranking.Num() <= Pair.Num()
  {
    MatchFits(cards);
    assert Counts(cards)[i] >= 2;
    EvalRanking(cards);
  }

  /** Three of a kind beside a second pair, or four of a kind, decide at least a full house. */
  lemma DecideFullHouse(fs: nat, sf: Option<seq<nat>>, flush: seq<nat>, st: Option<seq<nat>>, n: nat, idx: nat, o: int)
    requires (n == 3 && o >= 0) || n == 4
    ensures Decide(fs, sf, flush, st, n, idx, o).ranking.Num() <= FullHouse.Num()
  {
  }

  /** A match of at least two beside a second pair decides at least two pair. */
  lemma DecideTwoPair(fs: nat, sf: Option<seq<nat>>, flush: seq<nat>, st: Option<seq<nat>>, n: nat, idx: nat, o: int)
    requires 2 <= n <= 4 && o >= 0
    ensures Decide(fs, sf, flush, st, n, idx, o).ranking.Num() <= TwoPair.Num()
  {
  }

  /** A hand with three cards of one value and two of another ranks at least a full house. */
  lemma EvalAtLeastFullHouse(cards: seq<Card>, i: nat, j: nat)
    requires Evaluable(cards) && SortedByValue(cards) && i < |cards| && j < |cards|
    requires ValueCount(cards, cards[i].value) >= 3 && ValueCount(cards, cards[j].value) >= 2
    requires cards[i].value != cards[j].value
    ensures EvalSpec(cards).ranking.Num() <= FullHouse.Num()
  {
    MatchGroup(cards);
    if Kind(cards) == 3 {
      if cards[i].value == cards[MatchIdx(cards)].value {
        OtherIdxFirst(cards, j);
      } else {
        OtherIdxFirst(cards, i);
      }
    }
    EvalSpecDecides(cards);
    DecideFullHouse(FlushSuitOf(cards), StraightFlushOf(cards), FlushOf(cards),
                    BestStraightSpec(cards, NUM_SUITS), Kind(cards), MatchIdx(cards), OtherIdx(cards));
  }

  /** A hand with two cards of one value and two of another ranks at least two pair. */
  lemma EvalAtLeastTwoPair(cards: seq<Card>, i: nat, j: nat)
    requires Evaluable(cards) && SortedByValue(cards) && i < |cards| && j < |cards|
    requires ValueCount(cards, cards[i].value) >= 2 && ValueCount(cards, cards[j].value) >= 2
    requires cards[i].value != cards[j].value
    ensures EvalSpec(cards).ranking.Num() <= TwoPair.Num()
  {
    MatchGroup(cards);
    if cards[i].value == cards[MatchIdx(cards)].value {
      OtherIdxFirst(cards, j);
    } else {
      OtherIdxFirst(cards, i);
    }
    EvalSpecDecides(cards);
    DecideTwoPair(FlushSuitOf(cards), StraightFlushOf(cards), FlushOf(cards),
                  BestStraightSpec(cards, NUM_SUITS), Kind(cards), MatchIdx(cards), OtherIdx(cards));
  }

  /** Nothing is reported exactly when no value repeats, no suit has five cards and no straight exists. */
  lemma EvalNothingIff(cards: seq<Card>)
    requires Evaluable(cards) && SortedByValue(cards)
    ensures EvalSpec(cards).ranking == Nothing <==>
            (forall i :: 0 <= i < |cards| ==> ValueCount(cards, cards[i].value) == 1) &&
            (forall suit :: 0 <= suit < NUM_SUITS ==> SuitCount(cards, suit) < 5) &&
            (forall j :: 0 <= j < |cards| ==> StraightAt(cards, j, NUM_SUITS) == 0)
  {
    EvalRanking(cards);
    FlushSuitOfSpec(cards);
    BestStraightFinds(cards, NUM_SUITS);
    SinglesIff(cards);
    if Kind(cards) <= 1 && OtherIdx(cards) >= 0 {
      OtherGroup(cards);
    }
  }

  /** The largest match count is one exactly when every value occurs once. */
  lemma SinglesIff(cards: seq<Card>)
    requires Evaluable(cards) && SortedByValue(cards)
    ensures Kind(cards) <= 1 <==> forall i :: 0 <= i < |cards| ==> ValueCount(cards, cards[i].value) == 1
  {
    MatchGroup(cards);
    if forall i :: 0 <= i < |cards| ==> ValueCount(cards, cards[i].value) == 1 {
      assert ValueCount(cards, cards[MatchIdx(cards)].value) == 1;
    } else {
      var i :| 0 <= i < |cards| && ValueCount(cards, cards[i].value) != 1;
      CountPositive(cards, i);
    }
  }

  // ---------------------------------------------------------------------------
  // compare_hands

  /**
   * The values loop of compare_hands from position `from` on: the
   * difference at the first position where the two value lists differ, or 0
   * when they agree to the end.
   */
  function ValueDiff(a: seq<nat>, b: seq<nat>, from: nat): (r: int)
    requires |a| == |b| && from <= |a|
    ensures r == 0 <==> a[from..] == b[from..]
    ensures r != 0 ==> exists k :: from <= k < |a| && (forall j :: from <= j < k ==> a[j] == b[j]) && r == a[k] as int - b[k] as int
    decreases |a| - from
  {
    if from == |a| then 0
    else if a[from] != b[from] then a[from] - b[from]
    else
      assert a[from..] == [a[from]] + a[from + 1..] && b[from..] == [b[from]] + b[from + 1..];
      ValueDiff(a, b, from + 1)
  }

  /** Swapping the value lists flips the sign of their difference. */
  lemma {:induction false} ValueDiffAntisymmetric(a: seq<nat>, b: seq<nat>, from: nat)
    requires |a| == |b| && from <= |a|
    ensures ValueDiff(b, a, from) == -ValueDiff(a, b, from)
    decreases |a| - from
  {
    if from < |a| && a[from] == b[from] {
      ValueDiffAntisymmetric(a, b, from + 1);
    }
  }

  /** Evaluable hands stay evaluable when their cards are rearranged. */
  lemma EvaluablePermutation(a: seq<Card>, b: seq<Card>)
    requires Evaluable(a) && multiset(a) == multiset(b)
    ensures Evaluable(b)
  {
    assert |a| == |multiset(a)| == |multiset(b)| == |b|;
    ValueCountPermutation(a, b, 0);
    forall i | 0 <= i < |b|
      ensures ValueCount(b, b[i].value) <= 4
    {
      assert b[i] in multiset(a);
      var j :| 0 <= j < |a| && a[j] == b[i];
      ValueCountPermutation(a, b, b[i].value);
    }
  }

  /**
   * The comparison of two sorted hands: by ranking first (positive when
   * hand 1 ranks better, that is, has the smaller ranking number), then by
   * the values of the five chosen cards, most significant first.
   */
  function CompareSorted(s1: seq<Card>, s2: seq<Card>): int
    requires Evaluable(s1) && SortedByValue(s1) && Evaluable(s2) && SortedByValue(s2)
  {
    var e1 := EvalSpec(s1);
    var e2 := EvalSpec(s2);
    if e1.ranking != e2.ranking then e2.ranking.Num() - e1.ranking.Num()
    else
      EvalPicksValid(s1);
      EvalPicksValid(s2);
      ValueDiff(PickValues(s1, e1.picks), PickValues(s2, e2.picks), 0)
  }

  /** compare_hands on the cards of two hands: each hand is sorted first. */
  function CompareHandsSpec(h1: seq<Card>, h2: seq<Card>): int
    requires Evaluable(h1) && Evaluable(h2)
  {
    SortDescSorted(h1);
    SortDescSorted(h2);
    SortedDescByValue(SortDesc(h1));
    SortedDescByValue(SortDesc(h2));
    EvaluablePermutation(h1, SortDesc(h1));
    EvaluablePermutation(h2, SortDesc(h2));
    CompareSorted(SortDesc(h1), SortDesc(h2))
  }

  /**
   * compare_hands: sort both hands in place, evaluate them, compare the
   * rankings and then the five chosen values. Passing the same hand twice is
   * harmless: sorting a sorted hand changes nothing.
   */
  method CompareHands(hand1: Deck, hand2: Deck) returns (r: int)
    requires Evaluable(hand1.cards) && Evaluable(hand2.cards)
    modifies hand1, hand2
    ensures hand1.cards == SortDesc(old(hand1.cards)) && hand2.cards == SortDesc(old(hand2.cards))
    ensures r == CompareHandsSpec(old(hand1.cards), old(hand2.cards))
  {
    ghost var h1, h2 := hand1.cards, hand2.cards;
    SortedEvaluable(h1);
    SortedEvaluable(h2);
    CompareHandsSorted(h1, h2);
    SortHands(hand1, hand2);
    r := CompareSortedHands(hand1.cards, hand2.cards);
  }

  /** The two qsort calls of compare_hands; the hands may be one and the same. */
  method SortHands(hand1: Deck, hand2: Deck)
    modifies hand1, hand2
    ensures hand1.cards == SortDesc(old(hand1.cards)) && hand2.cards == SortDesc(old(hand2.cards))
  {
    ghost var h1 := hand1.cards;
    SortDescSorted(h1);
    SortDescIdempotent(SortDesc(h1));
    SortHand(hand1);
    SortHand(hand2);
  }

  lemma CompareHandsSorted(h1: seq<Card>, h2: seq<Card>)
    requires Evaluable(h1) && Evaluable(h2)
    requires Evaluable(SortDesc(h1)) && SortedByValue(SortDesc(h1)) && Evaluable(SortDesc(h2)) && SortedByValue(SortDesc(h2))
    ensures CompareHandsSpec(h1, h2) == CompareSorted(SortDesc(h1), SortDesc(h2))
  {
  }

  /** The sorted permutation of an evaluable hand is evaluable, sorted by value, and sorting it again changes nothing. */
  lemma SortedEvaluable(h: seq<Card>)
    requires Evaluable(h)
    ensures Evaluable(SortDesc(h)) && SortedByValue(SortDesc(h)) && SortDesc(SortDesc(h)) == SortDesc(h)
  {
    SortDescSorted(h);
    SortDescIdempotent(SortDesc(h));
    EvaluablePermutation(h, SortDesc(h));
    SortedDescByValue(SortDesc(h));
  }

  /** The evaluating and comparing part of compare_hands, on two sorted hands. */
  method CompareSortedHands(s1: seq<Card>, s2: seq<Card>) returns (r: int)
    requires Evaluable(s1) && SortedByValue(s1) && Evaluable(s2) && SortedByValue(s2)
    ensures r == CompareSorted(s1, s2)
  {
    var eval1 := EvaluateHand(s1);
    var eval2 := EvaluateHand(s2);
    EvalPicksValid(s1);
    EvalPicksValid(s2);
    r := CompareEvals(s1, eval1, s2, eval2);
  }

  /** The comparison of two evaluations: by ranking first, then by the values of the five cards. */
  method CompareEvals(cards1: seq<Card>, eval1: HandEval, cards2: seq<Card>, eval2: HandEval) returns (r: int)
    requires ValidPicks(cards1, eval1.picks) && ValidPicks(cards2, eval2.picks)
    ensures r == if eval1.ranking != eval2.ranking then eval2.ranking.Num() - eval1.ranking.Num()
                 else ValueDiff(PickValues(cards1, eval1.picks), PickValues(cards2, eval2.picks), 0)
  {
    if eval1.ranking != eval2.ranking {
      return eval2.ranking.Num() - eval1.ranking.Num();
    }
    r := CompareValues(cards1, eval1.picks, cards2, eval2.picks);
  }

  /** The values loop of compare_hands: the first difference of the chosen values. */
  method CompareValues(cards1: seq<Card>, picks1: seq<nat>, cards2: seq<Card>, picks2: seq<nat>) returns (r: int)
    requires ValidPicks(cards1, picks1) && ValidPicks(cards2, picks2)
    ensures r == ValueDiff(PickValues(cards1, picks1), PickValues(cards2, picks2), 0)
  {
    ghost var vals1 := PickValues(cards1, picks1);
    ghost var vals2 := PickValues(cards2, picks2);
    for i := 0 to 5
      invariant ValueDiff(vals1, vals2, 0) == ValueDiff(vals1, vals2, i)
    {
      var val1: int := cards1[picks1[i]].value;
      var val2: int := cards2[picks2[i]].value;
      if val1 != val2 {
        return val1 - val2;
      }
    }
    return 0;
  }

  /** Swapping the hands flips the sign of the comparison. */
  lemma CompareHandsAntisymmetric(h1: seq<Card>, h2: seq<Card>)
    requires Evaluable(h1) && Evaluable(h2)
    ensures CompareHandsSpec(h1, h2) == -CompareHandsSpec(h2, h1)
  {
    SortDescSorted(h1);
    SortDescSorted(h2);
    SortedDescByValue(SortDesc(h1));
    SortedDescByValue(SortDesc(h2));
    EvaluablePermutation(h1, SortDesc(h1));
    EvaluablePermutation(h2, SortDesc(h2));
    var s1, s2 := SortDesc(h1), SortDesc(h2);
    if EvalSpec(s1).ranking == EvalSpec(s2).ranking {
      EvalPicksValid(s1);
      EvalPicksValid(s2);
      ValueDiffAntisymmetric(PickValues(s1, EvalSpec(s1).picks), PickValues(s2, EvalSpec(s2).picks), 0);
    }
  }

  /** A hand ties with itself. */
  lemma CompareHandsSelf(h: seq<Card>)
    requires Evaluable(h)
    ensures CompareHandsSpec(h, h) == 0
  {
    CompareHandsAntisymmetric(h, h);
  }

  /** The comparison depends only on which cards each hand holds, not on their order. */
  lemma CompareHandsOrderFree(h1: seq<Card>, g1: seq<Card>, h2: seq<Card>, g2: seq<Card>)
    requires Evaluable(h1) && Evaluable(h2) && multiset(h1) == multiset(g1) && multiset(h2) == multiset(g2)
    ensures Evaluable(g1) && Evaluable(g2)
    ensures CompareHandsSpec(h1, h2) == CompareHandsSpec(g1, g2)
  {
    EvaluablePermutation(h1, g1);
    EvaluablePermutation(h2, g2);
    SortDescPermutationInvariant(h1, g1);
    SortDescPermutationInvariant(h2, g2);
  }

  /**
   * Sorted hands of different rankings compare by ranking alone: hand 1
   * wins exactly when its ranking is the stronger one; they tie exactly when
   * rankings and chosen values agree.
   */
  lemma CompareSortedByRanking(s1: seq<Card>, s2: seq<Card>)
    requires Evaluable(s1) && SortedByValue(s1) && Evaluable(s2) && SortedByValue(s2)
    ensures EvalSpec(s1).ranking != EvalSpec(s2).ranking ==>
              (CompareSorted(s1, s2) > 0 <==> EvalSpec(s1).ranking.Num() < EvalSpec(s2).ranking.Num())
    ensures ValidPicks(s1, EvalSpec(s1).picks) && ValidPicks(s2, EvalSpec(s2).picks)
    ensures CompareSorted(s1, s2) == 0 <==>
              EvalSpec(s1).ranking == EvalSpec(s2).ranking &&
              PickValues(s1, EvalSpec(s1).picks) == PickValues(s2, EvalSpec(s2).picks)
  {
    EvalPicksValid(s1);
    EvalPicksValid(s2);
    CompareOutcome(EvalSpec(s1).ranking, EvalSpec(s2).ranking,
                   PickValues(s1, EvalSpec(s1).picks), PickValues(s2, EvalSpec(s2).picks), CompareSorted(s1, s2));
  }

  /** The comparison of two evaluations, on their rankings and values alone. */
  lemma CompareOutcome(r1: Ranking, r2: Ranking, v1: seq<nat>, v2: seq<nat>, c: int)
    requires |v1| == |v2| == 5
    requires c == if r1 != r2 then r2.Num() - r1.Num() else ValueDiff(v1, v2, 0)
    ensures r1 != r2 ==> (c > 0 <==> r1.Num() < r2.Num())
    ensures c == 0 <==> r1 == r2 && v1 == v2
  {
    if r1 != r2 {
      assert r1.Num() != r2.Num();
    } else {
      assert v1[0..] == v1 && v2[0..] == v2;
    }
  }
  // ---------------------------------------------------------------------------
  // evaluate_hand and compare_hands with find_straight as written

  /** The straight flush evaluate_hand takes as written: the first straight of the flush suit. */
  function StraightFlushAsWritten(cards: seq<Card>): Option<seq<nat>>
    requires SortedByValue(cards)
  {
    var fs := FlushSuitOf(cards);
    if fs != NUM_SUITS then FindStraightSpec(cards, fs) else None
  }

  /** evaluate_hand as written: the same decisions, on the first straight find_straight meets. */
  function EvalAsWritten(cards: seq<Card>): HandEval
    requires Evaluable(cards) && SortedByValue(cards)
  {
    Decide(FlushSuitOf(cards), StraightFlushAsWritten(cards), FlushOf(cards), FindStraightSpec(cards, NUM_SUITS),
           Kind(cards), MatchIdx(cards), OtherIdx(cards))
  }

  /**
   * The ranking Decide reports depends only on whether a straight flush and
   * a straight were found, not on which; outside those two rankings the
   * picks do not depend on them either.
   */
  lemma DecideSameRanking(fs: nat, sf: Option<seq<nat>>, sf2: Option<seq<nat>>, flush: seq<nat>,
                          st: Option<seq<nat>>, st2: Option<seq<nat>>, n: nat, idx: nat, o: int)
    requires sf.Some? == sf2.Some? && st.Some? == st2.Some?
    ensures Decide(fs, sf, flush, st, n, idx, o).ranking == Decide(fs, sf2, flush, st2, n, idx, o).ranking
    ensures Decide(fs, sf, flush, st, n, idx, o).ranking != StraightFlush &&
            Decide(fs, sf, flush, st, n, idx, o).ranking != Straight ==>
              Decide(fs, sf, flush, st, n, idx, o) == Decide(fs, sf2, flush, st2, n, idx, o)
  {
  }

  /**
   * The as-written and the corrected evaluation always report the same
   * ranking, and the same picks unless the hand is a straight or a straight
   * flush.
   */
  lemma AsWrittenSameRanking(cards: seq<Card>)
    requires Evaluable(cards) && SortedByValue(cards)
    ensures EvalAsWritten(cards).ranking == EvalSpec(cards).ranking
    ensures EvalSpec(cards).ranking != StraightFlush && EvalSpec(cards).ranking != Straight ==>
              EvalAsWritten(cards) == EvalSpec(cards)
  {
    var fs := FlushSuitOf(cards);
    FindStraightFinds(cards, NUM_SUITS);
    BestStraightFinds(cards, NUM_SUITS);
    if fs != NUM_SUITS {
      FindStraightFinds(cards, fs);
      BestStraightFinds(cards, fs);
    }
    DecideSameRanking(fs, StraightFlushOf(cards), StraightFlushAsWritten(cards), FlushOf(cards),
                      BestStraightSpec(cards, NUM_SUITS), FindStraightSpec(cards, NUM_SUITS),
                      Kind(cards), MatchIdx(cards), OtherIdx(cards));
  }

  /** The straight find_straight returns names five different cards of the hand. */
  lemma FindStraightValid(cards: seq<Card>, fs: nat)
    requires SortedByValue(cards) && FindStraightSpec(cards, fs).Some?
    ensures ValidPicks(cards, FindStraightSpec(cards, fs).value)
  {
    StraightPicksShape(cards, ScanStraight(cards, fs, 0, 0).value, fs);
  }

  /** The as-written evaluation names five different cards of the hand. */
  lemma AsWrittenPicksValid(cards: seq<Card>)
    requires Evaluable(cards) && SortedByValue(cards)
    ensures ValidPicks(cards, EvalAsWritten(cards).picks)
  {
    AsWrittenSameRanking(cards);
    var e := EvalAsWritten(cards);
    if e.ranking == StraightFlush || e.ranking == Straight {
      MatchFits(cards);
      DecideOutcome(FlushSuitOf(cards), StraightFlushAsWritten(cards), FlushOf(cards),
                    FindStraightSpec(cards, NUM_SUITS), Kind(cards), MatchIdx(cards), OtherIdx(cards));
      if e.ranking == StraightFlush {
        FindStraightValid(cards, FlushSuitOf(cards));
      } else {
        FindStraightValid(cards, NUM_SUITS);
      }
    } else {
      EvalPicksValid(cards);
    }
  }

  /** compare_hands as written, on two sorted hands. */
  function CompareSortedAsWritten(s1: seq<Card>, s2: seq<Card>): int
    requires Evaluable(s1) && SortedByValue(s1) && Evaluable(s2) && SortedByValue(s2)
  {
    var e1 := EvalAsWritten(s1);
    var e2 := EvalAsWritten(s2);
    if e1.ranking != e2.ranking then e2.ranking.Num() - e1.ranking.Num()
    else
      AsWrittenPicksValid(s1);
      AsWrittenPicksValid(s2);
      ValueDiff(PickValues(s1, e1.picks), PickValues(s2, e2.picks), 0)
  }

  /**
   * compare_hands as written and the corrected comparison agree, except
   * when both hands are straights or both are straight flushes.
   */
  lemma AsWrittenCompareAgrees(s1: seq<Card>, s2: seq<Card>)
    requires Evaluable(s1) && SortedByValue(s1) && Evaluable(s2) && SortedByValue(s2)
    ensures !(EvalSpec(s1).ranking == EvalSpec(s2).ranking &&
              (EvalSpec(s1).ranking == Straight || EvalSpec(s1).ranking == StraightFlush)) ==>
              CompareSortedAsWritten(s1, s2) == CompareSorted(s1, s2)
  {
    AsWrittenSameRanking(s1);
    AsWrittenSameRanking(s2);
  }
}
