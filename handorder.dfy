/**
 * The order in which hands are evaluated: descending by value, and among
 * equal values descending by suit (club < diamond < heart < spade).
 * compare_hands sorts each hand into this order with qsort before it
 * evaluates it; the sort is modelled by an insertion sort with the same
 * outcome (the sorted permutation is unique).
 */
module HandOrder {
  import opened Cards
  import opened Decks

  /**
   * card_ptr_comp: negative when c1 must come first (higher value, or the
   * same value and a higher suit), zero only for equal cards, positive when
   * c2 must come first.
   */
  function CardPtrComp(c1: Card, c2: Card): (r: int)
    ensures r < 0 <==> c1.value > c2.value || (c1.value == c2.value && c1.suit > c2.suit)
    ensures r == 0 <==> c1 == c2
    ensures r > 0 <==> c1.value < c2.value || (c1.value == c2.value && c1.suit < c2.suit)
  {
    var difference := c2.value - c1.value;
    if difference != 0 then difference else c2.suit - c1.suit
  }

  /** Swapping the arguments flips the sign. */
  lemma CardPtrCompAntisymmetric(c1: Card, c2: Card)
    ensures CardPtrComp(c1, c2) == -CardPtrComp(c2, c1)
  {
  }

  /** The comparison orders cards transitively. */
  lemma CardPtrCompTransitive(a: Card, b: Card, c: Card)
    requires CardPtrComp(a, b) <= 0 && CardPtrComp(b, c) <= 0
    ensures CardPtrComp(a, c) <= 0
  {
  }

  /** Sorted as qsort leaves a hand under card_ptr_comp. */
  predicate SortedDesc(s: seq<Card>) {
    forall i, j :: 0 <= i < j < |s| ==> CardPtrComp(s[i], s[j]) <= 0
  }

  /** Values never increase along the hand: all that evaluation relies on. */
  predicate SortedByValue(s: seq<Card>) {
    forall i, j :: 0 <= i < j < |s| ==> s[i].value >= s[j].value
  }

  lemma SortedDescByValue(s: seq<Card>)
    requires SortedDesc(s)
    ensures SortedByValue(s)
  {
    forall i, j | 0 <= i < j < |s|
      ensures s[i].value >= s[j].value
    {
      assert CardPtrComp(s[i], s[j]) <= 0;
    }
  }

  /** c placed in front of the first card it may precede. */
  function Insert(s: seq<Card>, c: Card): (r: seq<Card>)
    ensures multiset(r) == multiset(s) + multiset{c}
  {
    if s == [] then [c]
    else if CardPtrComp(c, s[0]) <= 0 then [c] + s
    else
      assert s == [s[0]] + s[1..];
      [s[0]] + Insert(s[1..], c)
  }

  lemma {:induction false} InsertSorted(s: seq<Card>, c: Card)
    requires SortedDesc(s)
    ensures SortedDesc(Insert(s, c))
  {
    if s == [] {
    } else if CardPtrComp(c, s[0]) <= 0 {
      forall j | 0 <= j < |s|
        ensures CardPtrComp(c, s[j]) <= 0
      {
        if j > 0 {
          CardPtrCompTransitive(c, s[0], s[j]);
        }
      }
      ConsSorted(c, s);
    } else {
      SortedTail(s);
      InsertSorted(s[1..], c);
      HeadBeforeInsert(s, c);
      ConsSorted(s[0], Insert(s[1..], c));
    }
  }

  /** A card that precedes every card of a sorted hand can be put in front of it. */
  lemma ConsSorted(x: Card, rest: seq<Card>)
    requires SortedDesc(rest) && forall j :: 0 <= j < |rest| ==> CardPtrComp(x, rest[j]) <= 0
    ensures SortedDesc([x] + rest)
  {
    var r := [x] + rest;
    forall i, j | 0 <= i < j < |r|
      ensures CardPtrComp(r[i], r[j]) <= 0
    {
      assert r[j] == rest[j - 1];
      if i > 0 {
        assert r[i] == rest[i - 1];
      }
    }
  }

  /** When c goes behind the first card, that card precedes everything c is inserted into. */
  lemma HeadBeforeInsert(s: seq<Card>, c: Card)
    requires s != [] && SortedDesc(s) && CardPtrComp(c, s[0]) > 0
    ensures forall j :: 0 <= j < |Insert(s[1..], c)| ==> CardPtrComp(s[0], Insert(s[1..], c)[j]) <= 0
  {
    var tail := s[1..];
    var rest := Insert(tail, c);
    forall j | 0 <= j < |rest|
      ensures CardPtrComp(s[0], rest[j]) <= 0
    {
      assert rest[j] in multiset(rest);
      if rest[j] == c {
        CardPtrCompAntisymmetric(c, s[0]);
      } else {
        assert rest[j] in multiset(tail);
        var k :| 0 <= k < |tail| && tail[k] == rest[j];
        assert tail[k] == s[k + 1];
      }
    }
  }

  /** The sorted permutation of a hand, built by insertion from the front. */
  function SortDesc(s: seq<Card>): (r: seq<Card>)
    ensures multiset(r) == multiset(s)
  {
    if s == [] then []
    else
      assert s == s[..|s| - 1] + [s[|s| - 1]];
      Insert(SortDesc(s[..|s| - 1]), s[|s| - 1])
  }

  lemma {:induction false} SortDescSorted(s: seq<Card>)
    ensures SortedDesc(SortDesc(s))
  {
    if s != [] {
      SortDescSorted(s[..|s| - 1]);
      InsertSorted(SortDesc(s[..|s| - 1]), s[|s| - 1]);
    }
  }

  lemma SortedTail(s: seq<Card>)
    requires s != [] && SortedDesc(s)
    ensures SortedDesc(s[1..])
  {
    forall i, j | 0 <= i < j < |s[1..]|
      ensures CardPtrComp(s[1..][i], s[1..][j]) <= 0
    {
      assert s[1..][i] == s[i + 1] && s[1..][j] == s[j + 1];
    }
  }

  /** The first card of a sorted hand precedes every card of the hand. */
  lemma SortedHeadFirst(s: seq<Card>, c: Card)
    requires s != [] && SortedDesc(s) && c in multiset(s)
    ensures CardPtrComp(s[0], c) <= 0
  {
    var k :| 0 <= k < |s| && s[k] == c;
    if k > 0 {
      assert CardPtrComp(s[0], s[k]) <= 0;
    }
  }

  lemma MultisetTail(s: seq<Card>)
    requires s != []
    ensures multiset(s[1..]) == multiset(s) - multiset{s[0]}
  {
    assert s == [s[0]] + s[1..];
  }

  /** Two sorted arrangements of the same cards are identical. */
  lemma {:induction false} SortedUnique(a: seq<Card>, b: seq<Card>)
    requires SortedDesc(a) && SortedDesc(b) && multiset(a) == multiset(b)
    ensures a == b
  {
    if a == [] {
      assert |multiset(b)| == 0;
    } else {
      SameHead(a, b);
      MultisetTail(a);
      MultisetTail(b);
      SortedTail(a);
      SortedTail(b);
      SortedUnique(a[1..], b[1..]);
      assert a == [a[0]] + a[1..] && b == [b[0]] + b[1..];
    }
  }

  /** Two sorted arrangements of the same cards start with the same card. */
  lemma SameHead(a: seq<Card>, b: seq<Card>)
    requires a != [] && SortedDesc(a) && SortedDesc(b) && multiset(a) == multiset(b)
    ensures b != [] && a[0] == b[0]
  {
    assert |multiset(a)| == |a| && |multiset(b)| == |b|;
    assert a[0] in multiset(b) && b[0] in multiset(a);
    SortedHeadFirst(b, a[0]);
    SortedHeadFirst(a, b[0]);
    CardPtrCompAntisymmetric(a[0], b[0]);
  }

  /** Sorting a sorted hand changes nothing. */
  lemma SortDescIdempotent(s: seq<Card>)
    requires SortedDesc(s)
    ensures SortDesc(s) == s
  {
    SortDescSorted(s);
    SortedUnique(SortDesc(s), s);
  }

  /** The sorted hand depends only on which cards the hand holds, not on their order. */
  lemma SortDescPermutationInvariant(a: seq<Card>, b: seq<Card>)
    requires multiset(a) == multiset(b)
    ensures SortDesc(a) == SortDesc(b)
  {
    SortDescSorted(a);
    SortDescSorted(b);
    SortedUnique(SortDesc(a), SortDesc(b));
  }

  lemma SortDescStep(s: seq<Card>, i: nat)
    requires i < |s|
    ensures SortDesc(s[..i + 1]) == Insert(SortDesc(s[..i]), s[i])
  {
    assert s[..i + 1][..i] == s[..i];
  }

  /**
   * The in-place sort of compare_hands (qsort with card_ptr_comp): the
   * hand ends up as the sorted permutation of its cards.
   */
  method SortHand(hand: Deck)
    modifies hand
    ensures hand.cards == SortDesc(old(hand.cards))
    ensures SortedDesc(hand.cards) && multiset(hand.cards) == multiset(old(hand.cards))
  {
    var cards := hand.cards;
    var sorted: seq<Card> := [];
    for i := 0 to |cards|
      invariant sorted == SortDesc(cards[..i])
    {
      SortDescStep(cards, i);
      sorted := Insert(sorted, cards[i]);
    }
    assert cards[..|cards|] == cards;
    hand.cards := sorted;
    SortDescSorted(cards);
  }
}
