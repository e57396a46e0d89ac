/**
 * The future-card registry: a growable table that maps the index N of a
 * `?N` token to the list of places in the hands that are waiting for the
 * N-th card of the shuffled deck. The C pointers into the hands are
 * modelled as Slot references (hand number, position in that hand).
 */
module Future {
  import opened Cards
  import opened Decks

  /** A reference to position `pos` of hand number `hand`. */
  datatype Slot = Slot(hand: nat, pos: nat)

  /** The registry with its table extended by empty entries up to length n. */
  function Padded(decks: seq<seq<Slot>>, n: nat): (r: seq<seq<Slot>>)
    ensures |r| == if n > |decks| then n else |decks|
    ensures forall k :: 0 <= k < |decks| ==> r[k] == decks[k]
    ensures forall k :: |decks| <= k < |r| ==> r[k] == []
  {
    if n > |decks| then decks + seq(n - |decks|, _ => []) else decks
  }

  /** The table after registering `slot` under `index` (add_future_card). */
  function Registered(decks: seq<seq<Slot>>, index: nat, slot: Slot): seq<seq<Slot>> {
    var p := Padded(decks, index + 1);
    p[index := p[index] + [slot]]
  }

  /**
   * Registering grows the table to max(old length, index + 1); the entry
   * `index` gains `slot` at its end; every other entry is unchanged, and the
   * entries created on the way are empty.
   */
  lemma RegisteredShape(decks: seq<seq<Slot>>, index: nat, slot: Slot)
    ensures |Registered(decks, index, slot)| == if index < |decks| then |decks| else index + 1
    ensures Registered(decks, index, slot)[index] ==
            (if index < |decks| then decks[index] else []) + [slot]
    ensures forall k :: 0 <= k < |decks| && k != index ==> Registered(decks, index, slot)[k] == decks[k]
    ensures forall k :: |decks| <= k < |Registered(decks, index, slot)| && k != index ==>
              Registered(decks, index, slot)[k] == []
  {
  }

  /** A slot is under exactly the entries that held it before, plus `index`. */
  lemma RegisteredMembers(decks: seq<seq<Slot>>, index: nat, slot: Slot, k: nat, s: Slot)
    requires k < |Registered(decks, index, slot)|
    ensures s in Registered(decks, index, slot)[k] <==>
            (k < |decks| && s in decks[k]) || (k == index && s == slot)
  {
  }

  class FutureCards {
    var decks: seq<seq<Slot>>

    /** init_future_cards: a registry with no entries. */
    constructor ()
      ensures decks == []
    {
      decks := [];
    }

    /**
     * add_future_card: grow the table one empty entry at a time until it
     * has an entry `index`, then append the slot to that entry.
     */
    method AddFutureCard(index: nat, slot: Slot)
      modifies this
      ensures decks == Registered(old(decks), index, slot)
    {
      while index >= |decks|
        invariant |old(decks)| <= |decks|
        invariant |decks| == |old(decks)| || |decks| <= index + 1
        invariant decks == Padded(old(decks), |decks|)
        decreases index + 1 - |decks|
      {
        decks := decks + [[]];
      }
      decks := decks[index := decks[index] + [slot]];
    }
  }

  // The resolution step, stated on the card contents of the hands.

  /** Whether `s` names an existing position of the hands `h`. */
  predicate InRange(h: seq<seq<Card>>, s: Slot) {
    s.hand < |h| && s.pos < |h[s.hand]|
  }

  /** The cards of each hand, hand by hand. */
  ghost function Contents(hands: seq<Deck>): (h: seq<seq<Card>>)
    reads set d | d in hands
    ensures |h| == |hands|
    ensures forall k :: 0 <= k < |hands| ==> h[k] == hands[k].cards
  {
    seq(|hands|, k reads set d | d in hands requires 0 <= k < |hands| => hands[k].cards)
  }

  /** Hands of the same shape: as many hands, each as long. */
  predicate SameShape(a: seq<seq<Card>>, b: seq<seq<Card>>) {
    |a| == |b| && forall k :: 0 <= k < |a| ==> |a[k]| == |b[k]|
  }

  /** The hands after card c is written through slot s. */
  function Write(h: seq<seq<Card>>, s: Slot, c: Card): (r: seq<seq<Card>>)
    ensures SameShape(r, h)
  {
    if InRange(h, s) then h[s.hand := h[s.hand][s.pos := c]] else h
  }

  /** The hands after card c is written through each slot of an entry, in order. */
  function WriteAll(h: seq<seq<Card>>, slots: seq<Slot>, c: Card): (r: seq<seq<Card>>)
    ensures SameShape(r, h)
  {
    if slots == [] then h
    else Write(WriteAll(h, slots[..|slots| - 1], c), slots[|slots| - 1], c)
  }

  /**
   * future_cards_from_deck: entry i of the table receives deck card i,
   * entry after entry; an empty entry still uses up its deck card.
   */
  function Resolve(h: seq<seq<Card>>, decks: seq<seq<Slot>>, deck: seq<Card>): (r: seq<seq<Card>>)
    requires |decks| <= |deck|
    ensures SameShape(r, h)
  {
    if decks == [] then h
    else
      var n := |decks| - 1;
      WriteAll(Resolve(h, decks[..n], deck), decks[n], deck[n])
  }

  lemma SameShapeInRange(a: seq<seq<Card>>, b: seq<seq<Card>>, s: Slot)
    requires SameShape(a, b)
    ensures InRange(a, s) <==> InRange(b, s)
  {
  }

  /** Writing an entry changes exactly the slots of that entry, to c. */
  lemma {:induction false} WriteAllAt(h: seq<seq<Card>>, slots: seq<Slot>, c: Card, s: Slot)
    requires InRange(h, s)
    ensures InRange(WriteAll(h, slots, c), s)
    ensures WriteAll(h, slots, c)[s.hand][s.pos] == if s in slots then c else h[s.hand][s.pos]
  {
    if slots != [] {
      var init := slots[..|slots| - 1];
      WriteAllAt(h, init, c, s);
      assert slots == init + [slots[|slots| - 1]];
      SameShapeInRange(WriteAll(h, init, c), h, s);
    }
  }

  /**
   * The broadcast: a slot last registered under index i holds deck card i
   * after resolution.
   */
  lemma {:induction false} ResolveRegistered(h: seq<seq<Card>>, decks: seq<seq<Slot>>, deck: seq<Card>,
                                             s: Slot, i: nat)
    requires |decks| <= |deck|
    requires InRange(h, s)
    requires i < |decks| && s in decks[i]
    requires forall k :: i < k < |decks| ==> s !in decks[k]
    ensures Resolve(h, decks, deck)[s.hand][s.pos] == deck[i]
  {
    var n := |decks| - 1;
    var prev := Resolve(h, decks[..n], deck);
    SameShapeInRange(prev, h, s);
    WriteAllAt(prev, decks[n], deck[n], s);
    if i < n {
      ResolveRegistered(h, decks[..n], deck, s, i);
    }
  }

  /** A slot registered under no index keeps its card. */
  lemma {:induction false} ResolveUnregistered(h: seq<seq<Card>>, decks: seq<seq<Slot>>, deck: seq<Card>, s: Slot)
    requires |decks| <= |deck|
    requires InRange(h, s)
    requires forall k :: 0 <= k < |decks| ==> s !in decks[k]
    ensures Resolve(h, decks, deck)[s.hand][s.pos] == h[s.hand][s.pos]
  {
    if decks != [] {
      var n := |decks| - 1;
      var prev := Resolve(h, decks[..n], deck);
      SameShapeInRange(prev, h, s);
      WriteAllAt(prev, decks[n], deck[n], s);
      ResolveUnregistered(h, decks[..n], deck, s);
    }
  }

  /** No slot appears twice in the table (each `?N` token makes its own placeholder). */
  predicate Unique(decks: seq<seq<Slot>>) {
    forall i, j, a, b ::
      0 <= i < |decks| && 0 <= j < |decks| && 0 <= a < |decks[i]| && 0 <= b < |decks[j]| && (i, a) != (j, b)
      ==> decks[i][a] != decks[j][b]
  }

  /** Each entry of a registered table is an old entry, or the new slot at the end of entry `index`. */
  lemma RegisteredAt(decks: seq<seq<Slot>>, index: nat, slot: Slot, k: nat, a: nat)
    requires k < |Registered(decks, index, slot)| && a < |Registered(decks, index, slot)[k]|
    ensures (k < |decks| && a < |decks[k]| && Registered(decks, index, slot)[k][a] == decks[k][a]) ||
            (k == index && a == |Registered(decks, index, slot)[k]| - 1 && Registered(decks, index, slot)[k][a] == slot)
  {
    RegisteredShape(decks, index, slot);
  }

  /** Registering a slot the table does not hold keeps every slot in one place only. */
  lemma RegisteredUnique(decks: seq<seq<Slot>>, index: nat, slot: Slot)
    requires Unique(decks)
    requires forall k :: 0 <= k < |decks| ==> slot !in decks[k]
    ensures Unique(Registered(decks, index, slot))
  {
    var r := Registered(decks, index, slot);
    forall i, j, a, b | 0 <= i < |r| && 0 <= j < |r| && 0 <= a < |r[i]| && 0 <= b < |r[j]| && (i, a) != (j, b)
      ensures r[i][a] != r[j][b]
    {
      RegisteredAt(decks, index, slot, i, a);
      RegisteredAt(decks, index, slot, j, b);
      if i < |decks| && a < |decks[i]| && r[i][a] == decks[i][a] {
        assert decks[i][a] in decks[i];
      }
      if j < |decks| && b < |decks[j]| && r[j][b] == decks[j][b] {
        assert decks[j][b] in decks[j];
      }
    }
  }

  /**
   * All slots sharing an index, in the same hand or in different hands, hold
   * the same card after resolution: deck card i.
   */
  lemma SharedIndex(h: seq<seq<Card>>, decks: seq<seq<Slot>>, deck: seq<Card>, i: nat, a: nat, b: nat)
    requires |decks| <= |deck| && Unique(decks)
    requires i < |decks| && a < |decks[i]| && b < |decks[i]|
    requires InRange(h, decks[i][a]) && InRange(h, decks[i][b])
    ensures Resolve(h, decks, deck)[decks[i][a].hand][decks[i][a].pos] == deck[i]
    ensures Resolve(h, decks, deck)[decks[i][a].hand][decks[i][a].pos] ==
            Resolve(h, decks, deck)[decks[i][b].hand][decks[i][b].pos]
  {
    forall k, e | i < k < |decks| && 0 <= e < |decks[k]|
      ensures decks[k][e] != decks[i][a] && decks[k][e] != decks[i][b]
    {
      assert (k, e) != (i, a) && (k, e) != (i, b);
    }
    ResolveRegistered(h, decks, deck, decks[i][a], i);
    ResolveRegistered(h, decks, deck, decks[i][b], i);
  }

  /** Hands with pairwise different identities, so writing through one leaves the others alone. */
  predicate Distinct(hands: seq<Deck>) {
    forall a, b :: 0 <= a < b < |hands| ==> hands[a] != hands[b]
  }

  method WriteSlot(hands: seq<Deck>, s: Slot, c: Card)
    requires Distinct(hands) && InRange(Contents(hands), s)
    modifies set d | d in hands
    ensures Contents(hands) == Write(old(Contents(hands)), s, c)
  {
    var d := hands[s.hand];
    d.cards := d.cards[s.pos := c];
  }

  /**
   * future_cards_from_deck: for entry i of the table (i counting every
   * entry, empty ones included), write deck card i through each of its slots.
   */
  method FutureCardsFromDeck(deck: Deck, fc: FutureCards, hands: seq<Deck>)
    requires Distinct(hands) && deck !in hands
    requires |fc.decks| <= |deck.cards|
    requires forall i, j :: 0 <= i < |fc.decks| && 0 <= j < |fc.decks[i]| ==> InRange(Contents(hands), fc.decks[i][j])
    modifies set d | d in hands
    ensures Contents(hands) == Resolve(old(Contents(hands)), fc.decks, deck.cards)
  {
    ghost var start := Contents(hands);
    var table := fc.decks;
    var cards := deck.cards;
    var index := 0;
    for i := 0 to |table|
      invariant index == i
      invariant Contents(hands) == Resolve(start, table[..i], cards)
    {
      assert table[..i + 1][..i] == table[..i];
      forall j | 0 <= j < |table[i]|
        ensures InRange(Contents(hands), table[i][j])
      {
        SameShapeInRange(Contents(hands), start, table[i][j]);
      }
      WriteEntry(hands, table[i], cards[index]);
      index := index + 1;
    }
    assert table[..|table|] == table;
  }

  /** The inner loop of future_cards_from_deck: card c written through each slot of one entry. */
  method WriteEntry(hands: seq<Deck>, slots: seq<Slot>, c: Card)
    requires Distinct(hands)
    requires forall j :: 0 <= j < |slots| ==> InRange(Contents(hands), slots[j])
    modifies set d | d in hands
    ensures Contents(hands) == WriteAll(old(Contents(hands)), slots, c)
  {
    ghost var before := Contents(hands);
    for j := 0 to |slots|
      invariant Contents(hands) == WriteAll(before, slots[..j], c)
    {
      assert slots[..j + 1][..j] == slots[..j];
      SameShapeInRange(Contents(hands), before, slots[j]);
      WriteSlot(hands, slots[j], c);
    }
    assert slots[..|slots|] == slots;
  }
}
