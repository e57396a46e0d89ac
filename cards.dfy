/** Option type used for absent results (a NULL return in C). */
module Wrappers {
  datatype Option<+T> = None | Some(value: T)
}

/**
 * The card model: a playing card as a (value, suit) pair, its validity,
 * its two-letter text encoding and the canonical enumeration 0..51.
 */
module Cards {

  const DECK_SIZE: nat := 52
  const NUM_SUITS: nat := 4

  const VALUE_JACK: nat := 11
  const VALUE_QUEEN: nat := 12
  const VALUE_KING: nat := 13
  const VALUE_ACE: nat := 14

  // Suits in increasing order; NUM_SUITS doubles as "no suit".
  const CLUBS: nat := 0
  const DIAMONDS: nat := 1
  const HEARTS: nat := 2
  const SPADES: nat := 3

  /** The value returned by SuitToInt for a letter that names no suit. */
  const BAD_SUIT: nat := 1000

  datatype Card = Card(value: nat, suit: nat)

  /** The placeholder written by add_empty_card for a card not dealt yet. */
  const PLACEHOLDER: Card := Card(0, 0)

  /** The nine rankings, strongest first, in the order of the C enum. */
  datatype Ranking =
    | StraightFlush | FourOfAKind | FullHouse | Flush | Straight
    | ThreeOfAKind | TwoPair | Pair | Nothing
  {
    /** The enum's integer: STRAIGHT_FLUSH = 0 ... NOTHING = 8; lower is stronger. */
    function Num(): (n: nat)
      ensures n <= 8
    {
      match this
      case StraightFlush => 0
      case FourOfAKind => 1
      case FullHouse => 2
      case Flush => 3
      case Straight => 4
      case ThreeOfAKind => 5
      case TwoPair => 6
      case Pair => 7
      case Nothing => 8
    }
  }

  lemma RankingNumInjective(a: Ranking, b: Ranking)
    ensures a.Num() == b.Num() <==> a == b
  {
  }

  /** is_card_valid: a value from 2 to the ace and one of the four suits; exactly the cards with two letters. */
  predicate IsCardValid(c: Card) {
    2 <= c.value <= VALUE_ACE && c.suit < NUM_SUITS
  }

  /** A card is valid exactly when it has both a rank letter and a suit letter. */
  lemma CardValidLetters(c: Card)
    ensures IsCardValid(c) <==> ValueLetter(c) != '~' && SuitLetter(c) != '~'
  {
  }

  /** A placeholder is never a valid card. */
  lemma PlaceholderInvalid()
    ensures !IsCardValid(PLACEHOLDER)
  {
  }

  function RankingToString(r: Ranking): (s: string)
    ensures |s| > 0
  {
    match r
    case StraightFlush => "STRAIGHT_FLUSH"
    case FourOfAKind => "FOUR_OF_A_KIND"
    case FullHouse => "FULL_HOUSE"
    case Flush => "FLUSH"
    case Straight => "STRAIGHT"
    case ThreeOfAKind => "THREE_OF_A_KIND"
    case TwoPair => "TWO_PAIR"
    case Pair => "PAIR"
    case Nothing => "NOTHING"
  }

  /** Different rankings have different names. */
  lemma RankingToStringInjective(a: Ranking, b: Ranking)
    ensures RankingToString(a) == RankingToString(b) ==> a == b
  {
  }

  /** The rank letter of a card: '2'..'9', '0' for ten, J, Q, K, A; '~' otherwise. */
  function ValueLetter(c: Card): (l: char)
    ensures l == '~' <==> !(2 <= c.value <= VALUE_ACE)
    ensures l != '~' ==> IsValueLetter(l) && ValueToInt(l) == c.value
  {
    if c.value == VALUE_ACE then 'A'
    else if c.value == VALUE_KING then 'K'
    else if c.value == VALUE_QUEEN then 'Q'
    else if c.value == VALUE_JACK then 'J'
    else if c.value == 10 then '0'
    else if 2 <= c.value <= 9 then (c.value + '0' as int) as char
    else '~'
  }

  /** The suit letter of a card: s, h, d, c; '~' otherwise. */
  function SuitLetter(c: Card): (l: char)
    ensures l == '~' <==> c.suit >= NUM_SUITS
    ensures l != '~' ==> IsSuitLetter(l) && SuitToInt(l) == c.suit
  {
    if c.suit == SPADES then 's'
    else if c.suit == HEARTS then 'h'
    else if c.suit == DIAMONDS then 'd'
    else if c.suit == CLUBS then 'c'
    else '~'
  }

  /** The value named by a rank letter, or 0 for a letter that names none. */
  function ValueToInt(letter: char): (v: nat)
    ensures v == 0 || 2 <= v <= VALUE_ACE
  {
    if letter == 'A' then VALUE_ACE
    else if letter == 'K' then VALUE_KING
    else if letter == 'Q' then VALUE_QUEEN
    else if letter == 'J' then VALUE_JACK
    else if letter == '0' then 10
    else if '2' <= letter <= '9' then letter as int - '0' as int
    else 0
  }

  /** The suit named by a suit letter, or BAD_SUIT for a letter that names none. */
  function SuitToInt(letter: char): (s: nat)
    ensures s < NUM_SUITS || s == BAD_SUIT
  {
    if letter == 's' then SPADES
    else if letter == 'h' then HEARTS
    else if letter == 'd' then DIAMONDS
    else if letter == 'c' then CLUBS
    else BAD_SUIT
  }

  predicate IsValueLetter(l: char) {
    l in "AKQJ0" || '2' <= l <= '9'
  }

  predicate IsSuitLetter(l: char) {
    l in "shdc"
  }

  /** Exactly the rank letters decode to a value; every other letter decodes to 0. */
  lemma ValueToIntRecognises(l: char)
    ensures ValueToInt(l) != 0 <==> IsValueLetter(l)
  {
  }

  /** Exactly the suit letters decode to a suit; every other letter decodes to BAD_SUIT. */
  lemma SuitToIntRecognises(l: char)
    ensures SuitToInt(l) < NUM_SUITS <==> IsSuitLetter(l)
    ensures !IsSuitLetter(l) ==> SuitToInt(l) == BAD_SUIT
  {
  }

  /** Value round trip: every value 2..14 is written and read back unchanged, ten as '0'. */
  lemma ValueRoundTrip(c: Card)
    requires 2 <= c.value <= VALUE_ACE
    ensures IsValueLetter(ValueLetter(c))
    ensures ValueToInt(ValueLetter(c)) == c.value
    ensures c.value == 10 ==> ValueLetter(c) == '0'
  {
  }

  /** Letter round trip: every rank letter is read and written back unchanged. */
  lemma ValueLetterRoundTrip(l: char, suit: nat)
    requires IsValueLetter(l)
    ensures ValueLetter(Card(ValueToInt(l), suit)) == l
  {
  }

  /** Suit round trip: every valid suit is written and read back unchanged. */
  lemma SuitRoundTrip(c: Card)
    requires c.suit < NUM_SUITS
    ensures IsSuitLetter(SuitLetter(c))
    ensures SuitToInt(SuitLetter(c)) == c.suit
  {
  }

  lemma SuitLetterRoundTrip(l: char, value: nat)
    requires IsSuitLetter(l)
    ensures SuitLetter(Card(value, SuitToInt(l))) == l
  {
  }

  /**
   * The card named by two letters. Unknown letters give value 0 or suit
   * BAD_SUIT, so the result is then invalid; nothing is rejected here.
   */
  function CardFromLetters(valueLet: char, suitLet: char): (c: Card)
    ensures IsCardValid(c) <==> IsValueLetter(valueLet) && IsSuitLetter(suitLet)
  {
    ValueToIntRecognises(valueLet);
    SuitToIntRecognises(suitLet);
    Card(ValueToInt(valueLet), SuitToInt(suitLet))
  }

  /** Every valid card is written as two letters that read back as the same card. */
  lemma CardLettersRoundTrip(c: Card)
    requires IsCardValid(c)
    ensures CardFromLetters(ValueLetter(c), SuitLetter(c)) == c
  {
    ValueRoundTrip(c);
    SuitRoundTrip(c);
  }

  /** The card with canonical number n: all thirteen clubs first, then diamonds, hearts, spades. */
  function CardFromNum(n: nat): (c: Card)
    ensures IsCardValid(c) <==> n < DECK_SIZE
  {
    Card(n % 13 + 2, n / 13)
  }

  /** The canonical number of a card (the inverse of CardFromNum on valid cards). */
  function CardToNum(c: Card): (n: nat)
    requires IsCardValid(c)
    ensures n < DECK_SIZE
  {
    c.suit * 13 + c.value - 2
  }

  /** Each number below 52 names a valid card, with value n % 13 + 2 and suit n / 13. */
  lemma CardFromNumValid(n: nat)
    requires n < DECK_SIZE
    ensures IsCardValid(CardFromNum(n))
    ensures CardFromNum(n).value == n % 13 + 2 && CardFromNum(n).suit == n / 13
  {
  }

  /** Different numbers below 52 name different cards. */
  lemma CardFromNumInjective(m: nat, n: nat)
    requires m < DECK_SIZE && n < DECK_SIZE
    ensures CardFromNum(m) == CardFromNum(n) ==> m == n
  {
    if CardFromNum(m) == CardFromNum(n) {
      assert m % 13 == n % 13 && m / 13 == n / 13;
      assert m == (m / 13) * 13 + m % 13;
      assert n == (n / 13) * 13 + n % 13;
    }
  }

  /** Every valid card is named by exactly its own number. */
  lemma CardNumRoundTrip(c: Card)
    requires IsCardValid(c)
    ensures CardFromNum(CardToNum(c)) == c
  {
    var n := CardToNum(c);
    assert n == c.suit * 13 + (c.value - 2);
    assert n / 13 == c.suit && n % 13 == c.value - 2;
  }

  lemma NumCardRoundTrip(n: nat)
    requires n < DECK_SIZE
    ensures IsCardValid(CardFromNum(n)) && CardToNum(CardFromNum(n)) == n
  {
    CardFromNumValid(n);
    assert n == (n / 13) * 13 + n % 13;
  }
}
