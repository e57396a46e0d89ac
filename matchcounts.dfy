/**
 * Counting in a hand: the flush suit, the match counts of each card, and
 * the searches evaluate_hand runs over the match counts.
 */
module MatchCounts {
  import opened Cards
  import opened HandOrder

  /** How many cards of s have value v. */
  function ValueCount(s: seq<Card>, v: nat): (n: nat)
    ensures n <= |s|
  {
    if s == [] then 0
    else ValueCount(s[..|s| - 1], v) + (if s[|s| - 1].value == v then 1 else 0)
  }

  /** How many cards of s have the given suit. */
  function SuitCount(s: seq<Card>, suit: nat): (n: nat)
    ensures n <= |s|
  {
    if s == [] then 0
    else SuitCount(s[..|s| - 1], suit) + (if s[|s| - 1].suit == suit then 1 else 0)
  }

  lemma ValueCountStep(s: seq<Card>, i: nat, v: nat)
    requires i < |s|
    ensures ValueCount(s[..i + 1], v) == ValueCount(s[..i], v) + (if s[i].value == v then 1 else 0)
  {
    assert s[..i + 1][..i] == s[..i];
  }

  lemma SuitCountStep(s: seq<Card>, i: nat)
    requires i < |s|
    ensures forall suit :: SuitCount(s[..i + 1], suit) == SuitCount(s[..i], suit) + (if s[i].suit == suit then 1 else 0)
  {
    assert s[..i + 1][..i] == s[..i];
  }

  /** No card has value v exactly when the count of v is zero. */
  lemma {:induction false} ValueCountZero(s: seq<Card>, v: nat)
    ensures ValueCount(s, v) == 0 <==> forall i :: 0 <= i < |s| ==> s[i].value != v
  {
    if s != [] {
      var init := s[..|s| - 1];
      ValueCountZero(init, v);
      assert forall i :: 0 <= i < |init| ==> init[i] == s[i];
    }
  }

  /** Counts only grow along the prefixes of a hand. */
  lemma {:induction false} SuitCountPrefix(s: seq<Card>, i: nat, suit: nat)
    requires i <= |s|
    ensures SuitCount(s[..i], suit) <= SuitCount(s, suit)
    decreases |s| - i
  {
    if i < |s| {
      SuitCountStep(s, i);
      SuitCountPrefix(s, i + 1, suit);
    } else {
      assert s[..i] == s;
    }
  }

  /** Two different suits together have at most as many cards as the hand. */
  lemma {:induction false} TwoSuitCounts(s: seq<Card>, a: nat, b: nat)
    requires a != b
    ensures SuitCount(s, a) + SuitCount(s, b) <= |s|
  {
    if s != [] {
      TwoSuitCounts(s[..|s| - 1], a, b);
    }
  }

  /** Positions that all hold cards of one suit are no more than that suit's cards. */
  lemma {:induction false} SuitCountAtLeast(s: seq<Card>, suit: nat, ps: set<nat>)
    requires forall k :: k in ps ==> k < |s| && s[k].suit == suit
    ensures |ps| <= SuitCount(s, suit)
  {
    if s == [] {
      assert ps == {};
    } else {
      var n := |s| - 1;
      var rest := ps - {n};
      SuitCountAtLeast(s[..n], suit, rest);
    }
  }

  /** Every suit number is a real suit, as the counter array of flush_suit needs. */
  predicate SuitsInRange(cards: seq<Card>) {
    forall i :: 0 <= i < |cards| ==> cards[i].suit < NUM_SUITS
  }

  /**
   * The suit whose running count first exceeds 4 when the hand is scanned
   * from position i on, or NUM_SUITS when none does.
   */
  function FlushScan(cards: seq<Card>, i: nat): nat
    requires i <= |cards|
    decreases |cards| - i
  {
    if i == |cards| then NUM_SUITS
    else if SuitCount(cards[..i + 1], cards[i].suit) > 4 then cards[i].suit
    else FlushScan(cards, i + 1)
  }

  /** The flush suit of a hand: the first suit to reach five cards in scan order. */
  function FlushSuitOf(cards: seq<Card>): nat {
    FlushScan(cards, 0)
  }

  lemma {:induction false} FlushScanSpec(cards: seq<Card>, i: nat)
    requires i <= |cards| && SuitsInRange(cards)
    requires forall s :: 0 <= s < NUM_SUITS ==> SuitCount(cards[..i], s) < 5
    ensures FlushScan(cards, i) <= NUM_SUITS
    ensures FlushScan(cards, i) == NUM_SUITS <==> forall s :: 0 <= s < NUM_SUITS ==> SuitCount(cards, s) < 5
    ensures FlushScan(cards, i) < NUM_SUITS ==> SuitCount(cards, FlushScan(cards, i)) >= 5
    decreases |cards| - i
  {
    if i == |cards| {
      assert cards[..i] == cards;
    } else {
      var t := cards[i].suit;
      SuitCountStep(cards, i);
      if SuitCount(cards[..i + 1], t) > 4 {
        SuitCountPrefix(cards, i + 1, t);
      } else {
        var next := cards[..i + 1];
        forall s | 0 <= s < NUM_SUITS
          ensures SuitCount(next, s) < 5
        {
          assert SuitCount(next, s) == SuitCount(cards[..i], s) + (if t == s then 1 else 0);
        }
        FlushScanSpec(cards, i + 1);
      }
    }
  }

  /**
   * The flush suit is NUM_SUITS exactly when no suit has five or more cards;
   * otherwise it is a suit with at least five cards.
   */
  lemma FlushSuitOfSpec(cards: seq<Card>)
    requires SuitsInRange(cards)
    ensures FlushSuitOf(cards) <= NUM_SUITS
    ensures FlushSuitOf(cards) == NUM_SUITS <==> forall s :: 0 <= s < NUM_SUITS ==> SuitCount(cards, s) < 5
    ensures FlushSuitOf(cards) < NUM_SUITS ==> SuitCount(cards, FlushSuitOf(cards)) >= 5
  {
    assert cards[..0] == [];
    FlushScanSpec(cards, 0);
  }

  /** flush_suit: count the suits in a four-entry array, stopping at the first count above 4. */
  method FlushSuit(cards: seq<Card>) returns (r: nat)
    requires SuitsInRange(cards)
    ensures r == FlushSuitOf(cards)
  {
    var cardSuits := new nat[NUM_SUITS](_ => 0);
    for i := 0 to |cards|
      invariant forall s :: 0 <= s < NUM_SUITS ==> cardSuits[s] == SuitCount(cards[..i], s)
      invariant FlushScan(cards, 0) == FlushScan(cards, i)
    {
      var suit := cards[i].suit;
      SuitCountStep(cards, i);
      cardSuits[suit] := cardSuits[suit] + 1;
      if cardSuits[suit] > 4 {
        return suit;
      }
    }
    return NUM_SUITS;
  }

  /** Whether value v occurs among the first i cards. */
  predicate Seen(cards: seq<Card>, i: nat, v: nat) {
    exists p :: 0 <= p < i && p < |cards| && cards[p].value == v
  }

  lemma NotSeenCount(cards: seq<Card>, i: nat, v: nat)
    requires i <= |cards| && !Seen(cards, i, v)
    ensures ValueCount(cards[..i], v) == 0
  {
    ValueCountZero(cards[..i], v);
  }

  lemma CountPositive(cards: seq<Card>, k: nat)
    requires k < |cards|
    ensures ValueCount(cards, cards[k].value) >= 1
  {
    ValueCountZero(cards, cards[k].value);
  }

  lemma SeenStep(cards: seq<Card>, i: nat, v: nat)
    requires i < |cards|
    ensures Seen(cards, i + 1, v) <==> Seen(cards, i, v) || cards[i].value == v
  {
    if Seen(cards, i + 1, v) && !Seen(cards, i, v) {
      var p :| 0 <= p < i + 1 && p < |cards| && cards[p].value == v;
      assert p == i;
    }
  }

  /** What the match-count array holds once the first i cards have been visited. */
  ghost predicate CountsAfter(cards: seq<Card>, arr: seq<nat>, i: nat) {
    |arr| == |cards| &&
    forall k :: 0 <= k < |cards| ==>
      arr[k] == if Seen(cards, i, cards[k].value) then ValueCount(cards, cards[k].value) else 0
  }

  /** Visiting a card whose value was seen before changes nothing. */
  lemma CountsAfterSeen(cards: seq<Card>, arr: seq<nat>, i: nat)
    requires i < |cards| && CountsAfter(cards, arr, i) && Seen(cards, i, cards[i].value)
    ensures CountsAfter(cards, arr, i + 1)
  {
    forall k | 0 <= k < |cards|
      ensures Seen(cards, i + 1, cards[k].value) == Seen(cards, i, cards[k].value)
    {
      SeenStep(cards, i, cards[k].value);
    }
  }

  /** Writing the count of a first occurrence into all cards of that value. */
  lemma CountsAfterFirst(cards: seq<Card>, before: seq<nat>, after: seq<nat>, i: nat)
    requires i < |cards| && CountsAfter(cards, before, i) && !Seen(cards, i, cards[i].value)
    requires |after| == |cards|
    requires after[i] == ValueCount(cards, cards[i].value)
    requires forall k :: 0 <= k < |cards| && k != i ==>
      after[k] == if i < k && cards[k].value == cards[i].value then after[i] else before[k]
    ensures CountsAfter(cards, after, i + 1)
  {
    var value := cards[i].value;
    forall k | 0 <= k < |cards|
      ensures after[k] == if Seen(cards, i + 1, cards[k].value) then ValueCount(cards, cards[k].value) else 0
    {
      SeenStep(cards, i, cards[k].value);
    }
  }

  /**
   * get_match_counts: entry i is the number of cards with the value of card
   * i. A card whose entry is still 0 is the first of its value; it counts
   * its value over the rest of the hand and writes the count into every
   * later entry of that value.
   */
  method GetMatchCounts(cards: seq<Card>) returns (counts: seq<nat>)
    ensures |counts| == |cards|
    ensures forall i :: 0 <= i < |cards| ==> counts[i] == ValueCount(cards, cards[i].value)
  {
    var n := |cards|;
    var arr := new nat[n];
    for i := 0 to n
      invariant forall k :: 0 <= k < i ==> arr[k] == 0
    {
      arr[i] := 0;
    }
    for i := 0 to n
      invariant CountsAfter(cards, arr[..], i)
    {
      CountPositive(cards, i);
      if arr[i] == 0 {
        ghost var before := arr[..];
        var count := CountFirst(cards, i);
        SpreadCount(cards, arr, i, count);
        CountsAfterFirst(cards, before, arr[..], i);
      } else {
        CountsAfterSeen(cards, arr[..], i);
      }
    }
    counts := arr[..];
    forall k | 0 <= k < n
      ensures Seen(cards, n, cards[k].value)
    {
    }
  }

  /**
   * The counting loop of get_match_counts for a first occurrence at i: one
   * for card i, plus one for each later card of its value.
   */
  method CountFirst(cards: seq<Card>, i: nat) returns (count: nat)
    requires i < |cards| && !Seen(cards, i, cards[i].value)
    ensures count == ValueCount(cards, cards[i].value)
  {
    var value := cards[i].value;
    NotSeenCount(cards, i, value);
    ValueCountStep(cards, i, value);
    count := 1;
    for j := i + 1 to |cards|
      invariant count == ValueCount(cards[..j], value)
    {
      ValueCountStep(cards, j, value);
      if cards[j].value == value {
        count := count + 1;
      }
    }
    assert cards[..|cards|] == cards;
  }

  /** The writing loop of get_match_counts: the count goes to i and to every later card of its value. */
  method SpreadCount(cards: seq<Card>, arr: array<nat>, i: nat, count: nat)
    requires i < |cards| && arr.Length == |cards|
    modifies arr
    ensures arr[i] == count
    ensures forall k :: 0 <= k < |cards| && k != i ==>
              arr[k] == if i < k && cards[k].value == cards[i].value then count else old(arr[k])
  {
    arr[i] := count;
    for j := i + 1 to |cards|
      invariant arr[i] == count
      invariant forall k :: 0 <= k < |cards| && k != i ==>
                  arr[k] == if i < k < j && cards[k].value == cards[i].value then count else old(arr[k])
    {
      if cards[j].value == cards[i].value {
        arr[j] := count;
      }
    }
  }

  /** The match count of every card of a hand, computed by definition. */
  function Counts(cards: seq<Card>): (counts: seq<nat>)
    ensures |counts| == |cards|
    ensures forall i :: 0 <= i < |cards| ==> counts[i] == ValueCount(cards, cards[i].value)
  {
    seq(|cards|, i requires 0 <= i < |cards| => ValueCount(cards, cards[i].value))
  }

  /** get_match_counts on Ks Kh Qs Qh 0s 9d 9c 9h: two kings, two queens, one ten, three nines. */
  lemma MatchCountsExample()
    ensures Counts([Card(VALUE_KING, SPADES), Card(VALUE_KING, HEARTS), Card(VALUE_QUEEN, SPADES),
                    Card(VALUE_QUEEN, HEARTS), Card(10, SPADES), Card(9, DIAMONDS), Card(9, CLUBS),
                    Card(9, HEARTS)]) == [2, 2, 2, 2, 1, 3, 3, 3]
  {
    var h := [Card(VALUE_KING, SPADES), Card(VALUE_KING, HEARTS), Card(VALUE_QUEEN, SPADES),
              Card(VALUE_QUEEN, HEARTS), Card(10, SPADES), Card(9, DIAMONDS), Card(9, CLUBS),
              Card(9, HEARTS)];
    forall v | v in {VALUE_KING, VALUE_QUEEN, 10, 9}
      ensures ValueCount(h, v) == if v == 9 then 3 else if v == 10 then 1 else 2
    {
      assert h == h[..8] && h[..0] == [];
      ValueCountStep(h, 0, v); ValueCountStep(h, 1, v); ValueCountStep(h, 2, v); ValueCountStep(h, 3, v);
      ValueCountStep(h, 4, v); ValueCountStep(h, 5, v); ValueCountStep(h, 6, v); ValueCountStep(h, 7, v);
    }
    assert Counts(h)[0] == 2 && Counts(h)[4] == 1;
  }

  /** The largest element of a non-empty sequence. */
  function MaxOf(s: seq<nat>): (m: nat)
    requires s != []
    ensures m in s
    ensures forall i :: 0 <= i < |s| ==> s[i] <= m
  {
    if |s| == 1 then s[0]
    else
      var rest := MaxOf(s[..|s| - 1]);
      assert forall i :: 0 <= i < |s| - 1 ==> s[..|s| - 1][i] == s[i];
      if s[|s| - 1] > rest then s[|s| - 1] else rest
  }

  /** get_largest_element: the largest of the first n entries; n must be at least 1. */
  method GetLargestElement(arr: seq<nat>, n: nat) returns (max: nat)
    requires 1 <= n <= |arr|
    ensures max in arr[..n]
    ensures forall i :: 0 <= i < n ==> arr[i] <= max
  {
    max := arr[0];
    for i := 1 to n
      invariant max in arr[..i]
      invariant forall k :: 0 <= k < i ==> arr[k] <= max
    {
      if arr[i] > max {
        max := arr[i];
      }
    }
  }

  /** The first position of x in s. */
  function FirstIndexOf(s: seq<nat>, x: nat): (r: nat)
    requires x in s
    ensures r < |s| && s[r] == x
    ensures forall j :: 0 <= j < r ==> s[j] != x
  {
    if s[0] == x then 0
    else
      assert x in s[1..];
      1 + FirstIndexOf(s[1..], x)
  }

  /** get_match_index: the lowest index among the first n whose count is nOfAKind. */
  method GetMatchIndex(matchCounts: seq<nat>, n: nat, nOfAKind: nat) returns (r: nat)
    requires n <= |matchCounts|
    requires exists i :: 0 <= i < n && matchCounts[i] == nOfAKind
    ensures r < n && matchCounts[r] == nOfAKind
    ensures forall j :: 0 <= j < r ==> matchCounts[j] != nOfAKind
  {
    r := 0;
    while r < n
      invariant r <= n
      invariant forall j :: 0 <= j < r ==> matchCounts[j] != nOfAKind
    {
      if matchCounts[r] == nOfAKind {
        return;
      }
      r := r + 1;
    }
    // The precondition guarantees a match, so the scan never runs off the end.
    assert false;
  }

  /** Whether position i starts a second group: another value, and at least a pair of it. */
  predicate OtherPair(cards: seq<Card>, counts: seq<nat>, v: nat, i: nat)
    requires i < |cards| && |counts| == |cards|
  {
    cards[i].value != v && counts[i] > 1
  }

  /** The lowest position at or after `from` that starts a second group, or -1. */
  function SecondaryPairFrom(cards: seq<Card>, counts: seq<nat>, v: nat, from: nat): (r: int)
    requires |counts| == |cards| && from <= |cards|
    ensures -1 <= r < |cards|
    ensures r == -1 <==> forall i :: from <= i < |cards| ==> !OtherPair(cards, counts, v, i)
    ensures r >= 0 ==> from <= r && OtherPair(cards, counts, v, r) &&
                       forall i :: from <= i < r ==> !OtherPair(cards, counts, v, i)
    decreases |cards| - from
  {
    if from == |cards| then -1
    else if OtherPair(cards, counts, v, from) then from
    else SecondaryPairFrom(cards, counts, v, from + 1)
  }

  /**
   * find_secondary_pair: the lowest index whose value differs from the
   * card at matchIdx and whose match count is above 1, or -1 when none.
   */
  method FindSecondaryPair(cards: seq<Card>, matchCounts: seq<nat>, matchIdx: nat) returns (r: int)
    requires |matchCounts| == |cards| && matchIdx < |cards|
    ensures -1 <= r < |cards|
    ensures r == -1 <==> forall i :: 0 <= i < |cards| ==> !OtherPair(cards, matchCounts, cards[matchIdx].value, i)
    ensures r >= 0 ==> OtherPair(cards, matchCounts, cards[matchIdx].value, r) &&
                       forall i :: 0 <= i < r ==> !OtherPair(cards, matchCounts, cards[matchIdx].value, i)
  {
    var value := cards[matchIdx].value;
    for i := 0 to |cards|
      invariant forall k :: 0 <= k < i ==> !OtherPair(cards, matchCounts, value, k)
    {
      if cards[i].value != value && matchCounts[i] > 1 {
        assert OtherPair(cards, matchCounts, value, i);
        return i;
      }
    }
    return -1;
  }

  /**
   * In a hand sorted by value, the cards of the value at position idx, when
   * no earlier card has that value, are the block idx .. idx + count - 1;
   * the card after the block (if any) has a lower value.
   */
  lemma GroupBlock(cards: seq<Card>, idx: nat)
    requires SortedByValue(cards) && idx < |cards|
    requires forall j :: 0 <= j < idx ==> cards[j].value != cards[idx].value
    ensures idx + ValueCount(cards, cards[idx].value) <= |cards|
    ensures forall k :: idx <= k < idx + ValueCount(cards, cards[idx].value) ==> cards[k].value == cards[idx].value
    ensures forall k :: idx + ValueCount(cards, cards[idx].value) <= k < |cards| ==> cards[k].value < cards[idx].value
  {
    var v := cards[idx].value;
    var e := idx;
    while e < |cards| && cards[e].value == v
      invariant idx <= e <= |cards|
      invariant forall k :: idx <= k < e ==> cards[k].value == v
    {
      e := e + 1;
    }
    assert forall k :: e <= k < |cards| ==> cards[k].value < v by {
      forall k | e <= k < |cards|
        ensures cards[k].value < v
      {
        assert cards[e].value != v && cards[idx].value >= cards[e].value >= cards[k].value;
      }
    }
    BlockCount(cards, v, idx, e);
  }

  /** A value held exactly by the positions idx .. e - 1 has count e - idx. */
  lemma BlockCount(cards: seq<Card>, v: nat, idx: nat, e: nat)
    requires idx <= e <= |cards|
    requires forall k :: 0 <= k < |cards| ==> (cards[k].value == v <==> idx <= k < e)
    ensures ValueCount(cards, v) == e - idx
  {
    for m := 0 to |cards|
      invariant ValueCount(cards[..m], v) == if m <= idx then 0 else if m <= e then m - idx else e - idx
    {
      ValueCountStep(cards, m, v);
    }
    assert cards[..|cards|] == cards;
  }

  /** With suits in range, the count of a value is the sum of the multiplicities of its four cards. */
  lemma {:induction false} ValueCountBySuits(s: seq<Card>, v: nat)
    requires SuitsInRange(s)
    ensures ValueCount(s, v) ==
            multiset(s)[Card(v, CLUBS)] + multiset(s)[Card(v, DIAMONDS)] +
            multiset(s)[Card(v, HEARTS)] + multiset(s)[Card(v, SPADES)]
  {
    if s != [] {
      var init := s[..|s| - 1];
      var x := s[|s| - 1];
      assert SuitsInRange(init) by {
        forall i | 0 <= i < |init|
          ensures init[i].suit < NUM_SUITS
        {
          assert init[i] == s[i];
        }
      }
      ValueCountBySuits(init, v);
      assert s == init + [x];
      MultisetSnoc(init, x, Card(v, CLUBS));
      MultisetSnoc(init, x, Card(v, DIAMONDS));
      MultisetSnoc(init, x, Card(v, HEARTS));
      MultisetSnoc(init, x, Card(v, SPADES));
      assert x.suit < NUM_SUITS;
    }
  }

  lemma MultisetSnoc(init: seq<Card>, x: Card, c: Card)
    ensures multiset(init + [x])[c] == multiset(init)[c] + (if x == c then 1 else 0)
  {
    assert multiset(init + [x]) == multiset(init) + multiset{x};
  }

  /** Rearranging a hand changes no value count. */
  lemma ValueCountPermutation(a: seq<Card>, b: seq<Card>, v: nat)
    requires SuitsInRange(a) && multiset(a) == multiset(b)
    ensures SuitsInRange(b) && ValueCount(a, v) == ValueCount(b, v)
  {
    forall i | 0 <= i < |b|
      ensures b[i].suit < NUM_SUITS
    {
      assert b[i] in multiset(a);
    }
    ValueCountBySuits(a, v);
    ValueCountBySuits(b, v);
  }
}
