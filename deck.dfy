/**
 * Decks and hands: a growable sequence of cards (a deck_t, whose n_cards is
 * the length of the sequence), the full 52-card deck in canonical order, and
 * the deck that remains once the cards of several hands are taken out.
 */
module Decks {
  import opened Cards

  class Deck {
    var cards: seq<Card>

    /** initialize_deck: a new, empty deck. */
    constructor ()
      ensures cards == []
    {
      cards := [];
    }

    /** add_card_to: a copy of c becomes the new last card; earlier cards are unchanged. */
    method AddCardTo(c: Card)
      modifies this
      ensures cards == old(cards) + [c]
      ensures |cards| == |old(cards)| + 1 && cards[|cards| - 1] == c
      ensures cards[..|old(cards)|] == old(cards)
    {
      cards := cards + [c];
    }

    /**
     * add_empty_card: a placeholder (value 0, suit 0) becomes the new last card,
     * and the position of that slot is returned as its handle.
     */
    method AddEmptyCard() returns (slot: nat)
      modifies this
      ensures cards == old(cards) + [PLACEHOLDER]
      ensures slot == |old(cards)| && slot < |cards| && cards[slot] == PLACEHOLDER
      ensures cards[..slot] == old(cards)
    {
      slot := |cards|;
      cards := cards + [PLACEHOLDER];
      assert cards[..slot] == old(cards);
    }
  }

  /** cards_equal: two cards are equal exactly when value and suit both agree. */
  function CardsEqual(c1: Card, c2: Card): (r: bool)
    ensures r <==> c1 == c2
  {
    c1.value == c2.value && c1.suit == c2.suit
  }

  /** deck_contains: some position of the deck holds a card equal to c. */
  method DeckContains(d: Deck, c: Card) returns (found: bool)
    ensures found <==> c in d.cards
    ensures found <==> exists i :: 0 <= i < |d.cards| && CardsEqual(d.cards[i], c)
  {
    var i := 0;
    while i < |d.cards|
      invariant 0 <= i <= |d.cards|
      invariant c !in d.cards[..i]
    {
      if CardsEqual(d.cards[i], c) {
        return true;
      }
      i := i + 1;
    }
    assert d.cards[..i] == d.cards;
    return false;
  }

  /** The 52 cards in canonical order: position i holds card number i. */
  function FullDeck(): (r: seq<Card>)
    ensures |r| == DECK_SIZE
    ensures forall i :: 0 <= i < DECK_SIZE ==> r[i] == CardFromNum(i)
  {
    seq(DECK_SIZE, (i: int) requires 0 <= i => CardFromNum(i))
  }

  /** The full deck holds every valid card and nothing else. */
  lemma FullDeckIsAllValidCards(c: Card)
    ensures c in FullDeck() <==> IsCardValid(c)
  {
    if IsCardValid(c) {
      CardNumRoundTrip(c);
      assert FullDeck()[CardToNum(c)] == c;
    }
  }

  /** The 52 cards of the full deck are pairwise distinct. */
  lemma FullDeckDistinct(i: nat, j: nat)
    requires i < j < DECK_SIZE
    ensures FullDeck()[i] != FullDeck()[j]
  {
    CardFromNumInjective(i, j);
  }

  /** generate_new_deck: a fresh deck holding the full deck in canonical order. */
  method GenerateNewDeck() returns (deck: Deck)
    ensures fresh(deck)
    ensures deck.cards == FullDeck()
  {
    deck := new Deck();
    var built: seq<Card> := [];
    for i := 0 to DECK_SIZE
      invariant built == FullDeck()[..i]
    {
      var card := CardFromNum(i);
      built := built + [card];
    }
    deck.cards := built;
  }

  /**
   * The cards numbered below k that are not in the excluded sequence, in
   * increasing number order.
   */
  function ExcludeBelow(excluded: seq<Card>, k: nat): seq<Card>
    requires k <= DECK_SIZE
  {
    if k == 0 then []
    else
      var card := CardFromNum(k - 1);
      ExcludeBelow(excluded, k - 1) + (if card in excluded then [] else [card])
  }

  /** The full deck without the excluded cards, in canonical order. */
  function Exclude(excluded: seq<Card>): seq<Card> {
    ExcludeBelow(excluded, DECK_SIZE)
  }

  lemma {:induction false} ExcludeBelowMembers(excluded: seq<Card>, k: nat, c: Card)
    requires k <= DECK_SIZE
    ensures c in ExcludeBelow(excluded, k) <==>
      c !in excluded && exists i :: 0 <= i < k && CardFromNum(i) == c
  {
    if k > 0 {
      ExcludeBelowMembers(excluded, k - 1, c);
      if CardFromNum(k - 1) == c && c !in excluded {
        assert c in ExcludeBelow(excluded, k);
      }
    }
  }

  /** make_deck_exclude keeps exactly the valid cards that are not excluded. */
  lemma ExcludeMembers(excluded: seq<Card>, c: Card)
    ensures c in Exclude(excluded) <==> IsCardValid(c) && c !in excluded
  {
    ExcludeBelowMembers(excluded, DECK_SIZE, c);
    if IsCardValid(c) {
      CardNumRoundTrip(c);
    }
    if exists i :: 0 <= i < DECK_SIZE && CardFromNum(i) == c {
      var i :| 0 <= i < DECK_SIZE && CardFromNum(i) == c;
      CardFromNumValid(i);
    }
  }

  /** No card of the result is excluded. */
  lemma ExcludeAvoids(excluded: seq<Card>)
    ensures forall c :: c in Exclude(excluded) ==> c !in excluded && IsCardValid(c)
  {
    forall c | c in Exclude(excluded)
      ensures c !in excluded && IsCardValid(c)
    {
      ExcludeMembers(excluded, c);
    }
  }

  /** Valid cards whose canonical numbers strictly increase along the sequence. */
  predicate InCanonicalOrder(s: seq<Card>) {
    (forall i :: 0 <= i < |s| ==> IsCardValid(s[i])) &&
    forall i, j :: 0 <= i < j < |s| ==> CardToNum(s[i]) < CardToNum(s[j])
  }

  lemma {:induction false} ExcludeBelowOrdered(excluded: seq<Card>, k: nat)
    requires k <= DECK_SIZE
    ensures InCanonicalOrder(ExcludeBelow(excluded, k))
    ensures forall i :: 0 <= i < |ExcludeBelow(excluded, k)| ==> CardToNum(ExcludeBelow(excluded, k)[i]) < k
  {
    if k > 0 {
      ExcludeBelowOrdered(excluded, k - 1);
      var prev := ExcludeBelow(excluded, k - 1);
      var card := CardFromNum(k - 1);
      CardFromNumValid(k - 1);
      NumCardRoundTrip(k - 1);
      if card !in excluded {
        var r := prev + [card];
        assert ExcludeBelow(excluded, k) == r;
        assert forall i :: 0 <= i < |prev| ==> r[i] == prev[i];
      }
    }
  }

  /** The result keeps canonical order: card numbers strictly increase along it. */
  lemma ExcludeOrdered(excluded: seq<Card>)
    ensures InCanonicalOrder(Exclude(excluded))
  {
    ExcludeBelowOrdered(excluded, DECK_SIZE);
  }

  lemma {:induction false} ExcludeBelowNothing(k: nat)
    requires k <= DECK_SIZE
    ensures ExcludeBelow([], k) == FullDeck()[..k]
  {
    if k > 0 {
      ExcludeBelowNothing(k - 1);
      assert FullDeck()[..k] == FullDeck()[..k - 1] + [CardFromNum(k - 1)];
    }
  }

  /** Excluding nothing gives the full deck. */
  lemma ExcludeNothing()
    ensures Exclude([]) == FullDeck()
  {
    ExcludeBelowNothing(DECK_SIZE);
  }

  /** Excluding (at least) the full deck gives an empty deck. */
  lemma ExcludeEverything(excluded: seq<Card>)
    requires forall i :: 0 <= i < DECK_SIZE ==> CardFromNum(i) in excluded
    ensures Exclude(excluded) == []
  {
    if Exclude(excluded) != [] {
      var c := Exclude(excluded)[0];
      ExcludeMembers(excluded, c);
      CardNumRoundTrip(c);
      assert false;
    }
  }

  /** The canonical numbers of the valid cards of a sequence. */
  function NumsOf(s: seq<Card>): set<nat> {
    set c | c in s && IsCardValid(c) :: CardToNum(c)
  }

  /** The numbers below k whose card is excluded. */
  function ExcludedBelow(excluded: seq<Card>, k: nat): set<nat> {
    set n: nat | n < k && CardFromNum(n) in excluded
  }

  lemma {:induction false} ExcludeBelowSize(excluded: seq<Card>, k: nat)
    requires k <= DECK_SIZE
    ensures |ExcludedBelow(excluded, k)| <= k
    ensures |ExcludeBelow(excluded, k)| == k - |ExcludedBelow(excluded, k)|
  {
    if k > 0 {
      ExcludeBelowSize(excluded, k - 1);
      var prev := ExcludedBelow(excluded, k - 1);
      assert k - 1 !in prev;
      if CardFromNum(k - 1) in excluded {
        assert ExcludedBelow(excluded, k) == prev + {k - 1};
      } else {
        assert ExcludedBelow(excluded, k) == prev;
      }
    }
  }

  /** make_deck_exclude removes one card per different valid excluded card. */
  lemma ExcludeSize(excluded: seq<Card>)
    ensures |NumsOf(excluded)| <= DECK_SIZE
    ensures |Exclude(excluded)| == DECK_SIZE - |NumsOf(excluded)|
  {
    ExcludeBelowSize(excluded, DECK_SIZE);
    forall n | n in ExcludedBelow(excluded, DECK_SIZE)
      ensures n in NumsOf(excluded)
    {
      NumCardRoundTrip(n);
    }
    forall n | n in NumsOf(excluded)
      ensures n in ExcludedBelow(excluded, DECK_SIZE)
    {
      var c :| c in excluded && IsCardValid(c) && CardToNum(c) == n;
      CardNumRoundTrip(c);
    }
    assert ExcludedBelow(excluded, DECK_SIZE) == NumsOf(excluded);
  }

  /** Different valid cards have different canonical numbers. */
  lemma {:induction false} NumsOfDistinct(s: seq<Card>)
    requires forall i :: 0 <= i < |s| ==> IsCardValid(s[i])
    requires forall i, j :: 0 <= i < j < |s| ==> s[i] != s[j]
    ensures |NumsOf(s)| == |s|
  {
    if s != [] {
      var init := s[..|s| - 1];
      var c := s[|s| - 1];
      NumsOfDistinct(init);
      assert s == init + [c];
      assert NumsOf(s) == NumsOf(init) + {CardToNum(c)};
      forall d | d in init && IsCardValid(d)
        ensures CardToNum(d) != CardToNum(c)
      {
        CardNumRoundTrip(c);
        CardNumRoundTrip(d);
      }
    }
  }

  /** Excluding n different valid cards leaves 52 - n cards. */
  lemma ExcludeDistinctSize(excluded: seq<Card>)
    requires forall i :: 0 <= i < |excluded| ==> IsCardValid(excluded[i])
    requires forall i, j :: 0 <= i < j < |excluded| ==> excluded[i] != excluded[j]
    ensures |excluded| <= DECK_SIZE
    ensures |Exclude(excluded)| == DECK_SIZE - |excluded|
  {
    ExcludeSize(excluded);
    NumsOfDistinct(excluded);
  }

  /**
   * build_remaining_deck's example: the hands Kh Qs ?0 ?1 ?2 ?3 ?4 and
   * As Ac ?0 ?1 ?2 ?3 ?4 leave a deck of 48 cards.
   */
  lemma RemainingDeckExample()
    ensures |Exclude([Card(VALUE_KING, HEARTS), Card(VALUE_QUEEN, SPADES), PLACEHOLDER, PLACEHOLDER, PLACEHOLDER,
                      PLACEHOLDER, PLACEHOLDER, Card(VALUE_ACE, SPADES), Card(VALUE_ACE, CLUBS), PLACEHOLDER,
                      PLACEHOLDER, PLACEHOLDER, PLACEHOLDER, PLACEHOLDER])| == 48
  {
    var all := [Card(VALUE_KING, HEARTS), Card(VALUE_QUEEN, SPADES), PLACEHOLDER, PLACEHOLDER, PLACEHOLDER,
                PLACEHOLDER, PLACEHOLDER, Card(VALUE_ACE, SPADES), Card(VALUE_ACE, CLUBS), PLACEHOLDER,
                PLACEHOLDER, PLACEHOLDER, PLACEHOLDER, PLACEHOLDER];
    var dealt := [Card(VALUE_KING, HEARTS), Card(VALUE_QUEEN, SPADES), Card(VALUE_ACE, SPADES), Card(VALUE_ACE, CLUBS)];
    assert NumsOf(all) == NumsOf(dealt);
    ExcludeSize(all);
    NumsOfDistinct(dealt);
  }

  /** make_deck_exclude: a fresh deck with every card of the full deck not in excludedCards. */
  method MakeDeckExclude(excludedCards: Deck) returns (deck: Deck)
    ensures fresh(deck)
    ensures deck.cards == Exclude(excludedCards.cards)
  {
    deck := new Deck();
    for i := 0 to DECK_SIZE
      invariant deck.cards == ExcludeBelow(excludedCards.cards, i)
    {
      var card := CardFromNum(i);
      var contained := DeckContains(excludedCards, card);
      if !contained {
        deck.AddCardTo(card);
      }
    }
  }

  /** The valid cards of a sequence, in order. */
  function ValidCards(s: seq<Card>): seq<Card> {
    if s == [] then []
    else ValidCards(s[..|s| - 1]) + (if IsCardValid(s[|s| - 1]) then [s[|s| - 1]] else [])
  }

  lemma {:induction false} ValidCardsMembers(s: seq<Card>, c: Card)
    ensures c in ValidCards(s) <==> c in s && IsCardValid(c)
  {
    if s != [] {
      ValidCardsMembers(s[..|s| - 1], c);
      assert s == s[..|s| - 1] + [s[|s| - 1]];
    }
  }

  lemma ValidCardsSnoc(s: seq<Card>, c: Card)
    ensures ValidCards(s + [c]) == ValidCards(s) + (if IsCardValid(c) then [c] else [])
  {
    assert (s + [c])[..|s|] == s;
  }

  /** The cards of all the hands, hand after hand. */
  ghost function AllCards(hands: seq<Deck>): seq<Card>
    reads set h | h in hands
  {
    if hands == [] then []
    else AllCards(hands[..|hands| - 1]) + hands[|hands| - 1].cards
  }

  lemma AllCardsSnoc(hands: seq<Deck>, i: nat)
    requires i < |hands|
    ensures AllCards(hands[..i + 1]) == AllCards(hands[..i]) + hands[i].cards
  {
    assert hands[..i + 1][..i] == hands[..i];
  }

  lemma {:induction false} AllCardsMembers(hands: seq<Deck>, c: Card)
    ensures c in AllCards(hands) <==> exists k :: 0 <= k < |hands| && c in hands[k].cards
  {
    if hands != [] {
      var init := hands[..|hands| - 1];
      AllCardsMembers(init, c);
      assert forall k :: 0 <= k < |init| ==> init[k] == hands[k];
    }
  }

  /** Invalid cards (placeholders) never remove anything from the full deck. */
  lemma ExcludeIgnoresInvalid(excluded: seq<Card>)
    ensures Exclude(ValidCards(excluded)) == Exclude(excluded)
  {
    ExcludeBelowValid(excluded, DECK_SIZE);
  }

  lemma {:induction false} ExcludeBelowValid(excluded: seq<Card>, k: nat)
    requires k <= DECK_SIZE
    ensures ExcludeBelow(ValidCards(excluded), k) == ExcludeBelow(excluded, k)
  {
    if k > 0 {
      ExcludeBelowValid(excluded, k - 1);
      CardFromNumValid(k - 1);
      ValidCardsMembers(excluded, CardFromNum(k - 1));
    }
  }

  /**
   * build_remaining_deck: the full deck without every valid card of every
   * hand; placeholders in the hands remove nothing.
   */
  method BuildRemainingDeck(hands: seq<Deck>) returns (deck: Deck)
    ensures fresh(deck)
    ensures deck.cards == Exclude(ValidCards(AllCards(hands)))
    ensures deck.cards == Exclude(AllCards(hands))
  {
    var exclude := new Deck();
    ghost var seen: seq<Card> := [];
    for i := 0 to |hands|
      invariant seen == AllCards(hands[..i])
      invariant exclude.cards == ValidCards(seen)
    {
      var hand := hands[i];
      assert seen + hand.cards[..0] == seen;
      for j := 0 to |hand.cards|
        invariant exclude.cards == ValidCards(seen + hand.cards[..j])
      {
        var card := hand.cards[j];
        assert seen + hand.cards[..j + 1] == (seen + hand.cards[..j]) + [card];
        ValidCardsSnoc(seen + hand.cards[..j], card);
        if IsCardValid(card) {
          exclude.AddCardTo(card);
        }
      }
      assert hand.cards[..|hand.cards|] == hand.cards;
      AllCardsSnoc(hands, i);
      seen := seen + hand.cards;
    }
    assert hands[..|hands|] == hands;
    deck := MakeDeckExclude(exclude);
    ExcludeIgnoresInvalid(AllCards(hands));
  }

  /** A card is in the remaining deck exactly when it is valid and in none of the hands. */
  lemma RemainingDeckMembers(hands: seq<Deck>, c: Card)
    ensures c in Exclude(AllCards(hands)) <==>
      IsCardValid(c) && forall k :: 0 <= k < |hands| ==> c !in hands[k].cards
  {
    ExcludeMembers(AllCards(hands), c);
    AllCardsMembers(hands, c);
  }

  /**
   * add_hand_to_deck: copies of all of the hand's cards are appended, in order.
   * The two must be different decks: appending a deck to itself never ends.
   */
  method AddHandToDeck(deck: Deck, hand: Deck)
    requires deck != hand
    modifies deck
    ensures deck.cards == old(deck.cards) + hand.cards
  {
    for i := 0 to |hand.cards|
      invariant deck.cards == old(deck.cards) + hand.cards[..i]
    {
      var card := Card(hand.cards[i].value, hand.cards[i].suit);
      assert hand.cards[..i + 1] == hand.cards[..i] + [card];
      deck.AddCardTo(card);
    }
    assert hand.cards[..|hand.cards|] == hand.cards;
  }
}
