/**
 * Reading hands from text: whitespace classification, trimming a line, and
 * turning a line of card tokens ("As", "0d", "?3") into a hand, registering
 * every future-card placeholder with the registry.
 */
module Input {
  import opened Wrappers
  import opened Cards
  import opened Decks
  import opened Future

  /**
   * is_white_space: the control characters 9..13, the space (32), and the
   * codes 133 and 160. The end-of-string character is never whitespace, nor
   * is any letter of a card token.
   */
  function IsWhiteSpace(c: char): (r: bool)
    ensures r ==> c != '\0' && c != '?' && !IsValueLetter(c) && !IsSuitLetter(c)
  {
    (9 <= c as int <= 13) || c as int == 32 || c as int == 133 || c as int == 160
  }

  // ---------------------------------------------------------------------------
  // trim_hand

  /** The first position at or after i that is not whitespace (|s| if none). */
  function SkipSpace(s: string, i: nat): (r: nat)
    requires i <= |s|
    ensures i <= r <= |s|
    ensures forall k :: i <= k < r ==> IsWhiteSpace(s[k])
    ensures r < |s| ==> !IsWhiteSpace(s[r])
    decreases |s| - i
  {
    if i < |s| && IsWhiteSpace(s[i]) then SkipSpace(s, i + 1) else i
  }

  /** The end of s[..e] once its trailing whitespace is dropped. */
  function SkipSpaceBack(s: string, e: nat): (r: nat)
    requires e <= |s|
    ensures r <= e
    ensures forall k :: r <= k < e ==> IsWhiteSpace(s[k])
    ensures r > 0 ==> !IsWhiteSpace(s[r - 1])
  {
    if e > 0 && IsWhiteSpace(s[e - 1]) then SkipSpaceBack(s, e - 1) else e
  }

  /**
   * The trimmed line: None when the line is empty or all whitespace,
   * otherwise the part from the first to the last character that is not
   * whitespace.
   */
  function Trim(s: string): (r: Option<string>)
    ensures r.None? <==> forall k :: 0 <= k < |s| ==> IsWhiteSpace(s[k])
    ensures r.Some? ==> |r.value| > 0 && !IsWhiteSpace(r.value[0]) && !IsWhiteSpace(r.value[|r.value| - 1])
    ensures r.Some? ==> exists a, b :: 0 <= a < b <= |s| && r.value == s[a..b] &&
                          (forall k :: 0 <= k < a ==> IsWhiteSpace(s[k])) &&
                          (forall k :: b <= k < |s| ==> IsWhiteSpace(s[k]))
  {
    var a := SkipSpace(s, 0);
    if a == |s| then None
    else
      var b := SkipSpaceBack(s, |s|);
      assert a < b;
      Some(s[a..b])
  }

  /** Trimming a trimmed line changes nothing. */
  lemma TrimIdempotent(s: string)
    requires Trim(s).Some?
    ensures Trim(Trim(s).value) == Trim(s)
  {
    var t := Trim(s).value;
    assert SkipSpace(t, 0) == 0;
    assert SkipSpaceBack(t, |t|) == |t|;
    assert t[0..|t|] == t;
  }

  /**
   * trim_hand: skip whitespace from the front, give up on a blank line,
   * step back over whitespace from the end, and copy what lies between into
   * a fresh buffer.
   */
  method TrimHand(str: string) returns (r: Option<string>)
    ensures r == Trim(str)
  {
    var start := 0;
    while start < |str| && IsWhiteSpace(str[start])
      invariant start <= |str|
      invariant SkipSpace(str, start) == SkipSpace(str, 0)
    {
      start := start + 1;
    }
    if start == |str| {
      return None;
    }
    var end := |str| - 1;
    while IsWhiteSpace(str[end])
      invariant start <= end < |str|
      invariant SkipSpaceBack(str, end + 1) == SkipSpaceBack(str, |str|)
      decreases end
    {
      end := end - 1;
    }
    var trimmed := CopyRange(str, start, end);
    return Some(trimmed);
  }

  /** The copying loop of trim_hand: characters start through end into a fresh buffer. */
  method CopyRange(str: string, start: nat, end: nat) returns (r: string)
    requires start <= end < |str|
    ensures r == str[start..end + 1]
  {
    var trimmed := new char[end - start + 1];
    var i := 0;
    var k := start;
    while k <= end
      invariant start <= k <= end + 1 && i == k - start
      invariant trimmed[..i] == str[start..k]
      decreases end + 1 - k
    {
      trimmed[i] := str[k];
      i := i + 1;
      k := k + 1;
    }
    assert trimmed[..] == trimmed[..i];
    r := trimmed[..];
  }

  // ---------------------------------------------------------------------------
  // hand_from_string

  /**
   * atoi on a short digit string: an optional sign, then the value of the
   * leading run of decimal digits (0 when there is none).
   */
  function Atoi(t: string): (r: int)
    ensures AllDigits(t) ==> r == Decimal(t)
    ensures |t| > 0 && t[0] == '-' && AllDigits(t[1..]) ==> r == -(Decimal(t[1..]) as int)
    ensures |t| > 0 && t[0] == '+' && AllDigits(t[1..]) ==> r == Decimal(t[1..])
  {
    if |t| > 0 && t[0] == '-' then DigitsDecimal(t[1..]); -(Digits(t[1..], 0) as int)
    else if |t| > 0 && t[0] == '+' then DigitsDecimal(t[1..]); Digits(t[1..], 0)
    else DigitsDecimal(t); Digits(t, 0)
  }

  /** The scan of atoi: the leading decimal digits of t read onto acc, most significant first. */
  function Digits(t: string, acc: nat): nat {
    if |t| > 0 && IsDigit(t[0]) then Digits(t[1..], acc * 10 + DigitValue(t[0]))
    else acc
  }

  predicate IsDigit(c: char) {
    '0' <= c <= '9'
  }

  function DigitValue(c: char): nat
    requires IsDigit(c)
  {
    c as int - '0' as int
  }

  predicate AllDigits(t: string) {
    forall k :: 0 <= k < |t| ==> IsDigit(t[k])
  }

  /** The decimal value of a digit string, defined from its last digit. */
  function Decimal(t: string): nat
    requires AllDigits(t)
  {
    if t == [] then 0 else Decimal(t[..|t| - 1]) * 10 + DigitValue(t[|t| - 1])
  }

  /** Reading one digit more multiplies what was read by ten and adds the digit. */
  lemma {:induction false} DigitsSnoc(t: string, acc: nat)
    requires |t| > 0 && AllDigits(t)
    ensures Digits(t, acc) == Digits(t[..|t| - 1], acc) * 10 + DigitValue(t[|t| - 1])
    decreases |t|
  {
    var n := |t| - 1;
    if n > 0 {
      var acc' := acc * 10 + DigitValue(t[0]);
      DigitsSnoc(t[1..], acc');
      assert t[..n][1..] == t[1..][..n - 1];
    }
  }

  /** On a digit string, atoi's scan gives the decimal value. */
  lemma {:induction false} DigitsDecimal(t: string)
    ensures AllDigits(t) ==> Digits(t, 0) == Decimal(t)
    decreases |t|
  {
    if t != [] && AllDigits(t) {
      DigitsSnoc(t, 0);
      DigitsDecimal(t[..|t| - 1]);
    }
  }

  /** atoi on the digits of a future-card index: "3" is 3 and "51" is 51. */
  lemma AtoiExample()
    ensures Atoi("3") == 3 && Atoi("51") == 51
  {
    assert AllDigits("3") && AllDigits("51");
    assert "51"[..1] == "5";
  }

  /** Without a leading minus sign, atoi gives no negative index. */
  lemma AtoiNonNegative(t: string)
    requires |t| == 0 || t[0] != '-'
    ensures Atoi(t) >= 0
  {
  }

  /** What has been read so far: the hand's cards and the registry's table. */
  datatype Parsed = Parsed(cards: seq<Card>, decks: seq<seq<Slot>>)

  /**
   * Lines whose every chunk can be read: no character is the end-of-string
   * mark, and no `?` is followed by a minus sign (so every future-card index
   * is non-negative).
   */
  predicate Readable(s: string) {
    (forall k :: 0 <= k < |s| ==> s[k] != '\0') &&
    (forall k :: 0 <= k < |s| - 1 && s[k] == '?' ==> s[k + 1] != '-')
  }

  /**
   * The lines hand_from_string reads as intended, as trim_hand leaves them
   * when tokens are separated by single spaces: readable lines in which
   * every whitespace character is followed by a character that is not
   * whitespace (so there are no runs of whitespace and none at the end).
   */
  predicate WellFormed(s: string) {
    Readable(s) &&
    (forall k :: 0 <= k < |s| && IsWhiteSpace(s[k]) ==> k + 1 < |s| && !IsWhiteSpace(s[k + 1]))
  }

  /** The end of the token starting at i: the next whitespace, or the end of the line. */
  function TokenEnd(s: string, i: nat): (e: nat)
    requires i <= |s|
    ensures i <= e <= |s|
    ensures forall k :: i <= k < e ==> !IsWhiteSpace(s[k])
    ensures e < |s| ==> IsWhiteSpace(s[e])
    decreases |s| - i
  {
    if i < |s| && !IsWhiteSpace(s[i]) then TokenEnd(s, i + 1) else i
  }

  /** Where the chunk read at `start` begins: one whitespace character is skipped. */
  function ChunkStart(s: string, start: nat): (b: nat)
    requires WellFormed(s) && start < |s|
    ensures b < |s| && !IsWhiteSpace(s[b])
  {
    if IsWhiteSpace(s[start]) then start + 1 else start
  }

  /** Where that chunk ends: at most three characters of the token (the token buffer's room). */
  function ChunkStop(s: string, b: nat): (e: nat)
    requires b < |s| && !IsWhiteSpace(s[b])
    ensures b < e <= |s| && e <= b + 3
  {
    var t := TokenEnd(s, b);
    if t < b + 3 then t else b + 3
  }

  /**
   * The effect of one chunk: `?N` with N below the deck size appends a
   * placeholder and registers its position under N; a larger N is skipped;
   * any other chunk is read as value letter and suit letter, appended when
   * it is a valid card and skipped otherwise.
   */
  function ApplyChunk(c: string, st: Parsed, hand: nat): (r: Parsed)
    requires |c| >= 1 && (c[0] == '?' ==> Atoi(c[1..]) >= 0)
    ensures |st.cards| <= |r.cards| <= |st.cards| + 1 && r.cards[..|st.cards|] == st.cards
  {
    if c[0] == '?' then
      var n := Atoi(c[1..]);
      if n >= DECK_SIZE then st
      else Parsed(st.cards + [PLACEHOLDER], Registered(st.decks, n, Slot(hand, |st.cards|)))
    else
      var card := CardFromLetters(c[0], if |c| > 1 then c[1] else '\0');
      if IsCardValid(card) then Parsed(st.cards + [card], st.decks) else st
  }

  lemma ChunkIndex(s: string, b: nat, e: nat)
    requires Readable(s) && b < e <= |s| && !IsWhiteSpace(s[b])
    ensures s[b..e][0] == '?' ==> Atoi(s[b..e][1..]) >= 0
  {
    if s[b] == '?' && e > b + 1 {
      assert s[b..e][1..][0] == s[b + 1];
    }
  }

  /** The effect of the chunks from position `start` to the end of the line, in order. */
  function Parse(s: string, start: nat, st: Parsed, hand: nat): Parsed
    requires WellFormed(s) && start <= |s|
    decreases |s| - start
  {
    if start == |s| then st
    else
      var b := ChunkStart(s, start);
      var e := ChunkStop(s, b);
      ChunkIndex(s, b, e);
      Parse(s, e, ApplyChunk(s[b..e], st, hand), hand)
  }

  /**
   * hand_from_string: walk the line one chunk at a time, copy the chunk
   * into the token buffer, and either register a future card or append a
   * card, skipping what does not decode.
   */
  method HandFromString(str: string, fc: FutureCards, hand: nat) returns (deck: Deck)
    requires WellFormed(str)
    modifies fc
    ensures fresh(deck)
    ensures Parsed(deck.cards, fc.decks) == Parse(str, 0, Parsed([], old(fc.decks)), hand)
  {
    deck := new Deck();
    var c := new char[4];
    var start := 0;
    while start < |str|
      invariant start <= |str|
      invariant Parse(str, 0, Parsed([], old(fc.decks)), hand) == Parse(str, start, Parsed(deck.cards, fc.decks), hand)
      decreases |str| - start
    {
      ghost var st := Parsed(deck.cards, fc.decks);
      ghost var b := ChunkStart(str, start);
      var i;
      start, i := ReadChunk(str, start, c);
      ghost var chunk := str[b..start];
      ChunkIndex(str, b, start);
      if c[0] == '?' {
        var index := Atoi(c[1..i]);
        if index >= DECK_SIZE {
          continue;
        }
        var slot := deck.AddEmptyCard();
        fc.AddFutureCard(index, Slot(hand, slot));
      } else {
        var card := CardFromLetters(c[0], c[1]);
        if !IsCardValid(card) {
          continue;
        }
        deck.AddCardTo(card);
      }
      assert Parsed(deck.cards, fc.decks) == ApplyChunk(chunk, st, hand);
    }
  }

  /**
   * One pass of hand_from_string's scan: skip one whitespace character, find
   * the end of the token, and copy at most three of its characters into the
   * token buffer, terminated by the end-of-string mark.
   */
  method ReadChunk(str: string, start0: nat, c: array<char>) returns (start: nat, i: nat)
    requires WellFormed(str) && start0 < |str| && c.Length == 4
    modifies c
    ensures start == ChunkStop(str, ChunkStart(str, start0))
    ensures i == start - ChunkStart(str, start0) && 1 <= i <= 3
    ensures c[..i] == str[ChunkStart(str, start0)..start] && c[i] == '\0'
  {
    ghost var b := ChunkStart(str, start0);
    start := start0;
    if IsWhiteSpace(str[start]) {
      start := start + 1;
    }
    var end := start;
    while end < |str| && !IsWhiteSpace(str[end])
      invariant start <= end <= |str|
      invariant TokenEnd(str, end) == TokenEnd(str, start)
    {
      end := end + 1;
    }
    assert start == b && end == TokenEnd(str, b);
    i := 0;
    if start < end {
      while start < end && i < 3
        invariant b <= start <= end && i == start - b && i <= 3
        invariant end == TokenEnd(str, b)
        invariant c[..i] == str[b..start]
        decreases end - start
      {
        ghost var copied := c[..i];
        c[i] := str[start];
        assert c[..i + 1] == copied + [str[start]];
        assert str[b..start + 1] == str[b..start] + [str[start]];
        i := i + 1;
        start := start + 1;
      }
      c[i] := '\0';
    }
  }

  // ---------------------------------------------------------------------------
  // What reading a line does to the hand and the registry

  /** Reading only appends: the cards held before keep their positions. */
  lemma {:induction false} ParseExtends(s: string, start: nat, st: Parsed, hand: nat)
    requires WellFormed(s) && start <= |s|
    ensures |Parse(s, start, st, hand).cards| >= |st.cards|
    ensures Parse(s, start, st, hand).cards[..|st.cards|] == st.cards
    decreases |s| - start
  {
    if start < |s| {
      var b := ChunkStart(s, start);
      var e := ChunkStop(s, b);
      ChunkIndex(s, b, e);
      var next := ApplyChunk(s[b..e], st, hand);
      ParseExtends(s, e, next, hand);
      var r := Parse(s, e, next, hand).cards;
      assert r[..|st.cards|] == r[..|next.cards|][..|st.cards|];
    }
  }

  /**
   * Every slot of this hand in the registry names a placeholder of the hand:
   * true before reading, it stays true, because a `?N` chunk registers
   * exactly the position of the placeholder it appends.
   */
  predicate SlotsArePlaceholders(st: Parsed, hand: nat) {
    forall i, j :: 0 <= i < |st.decks| && 0 <= j < |st.decks[i]| && st.decks[i][j].hand == hand ==>
      st.decks[i][j].pos < |st.cards| && st.cards[st.decks[i][j].pos] == PLACEHOLDER
  }

  lemma ApplyChunkSlots(c: string, st: Parsed, hand: nat)
    requires |c| >= 1 && (c[0] == '?' ==> Atoi(c[1..]) >= 0)
    requires SlotsArePlaceholders(st, hand)
    ensures SlotsArePlaceholders(ApplyChunk(c, st, hand), hand)
  {
    var r := ApplyChunk(c, st, hand);
    if c[0] == '?' && Atoi(c[1..]) < DECK_SIZE {
      var n := Atoi(c[1..]);
      forall i, j | 0 <= i < |r.decks| && 0 <= j < |r.decks[i]| && r.decks[i][j].hand == hand
        ensures r.decks[i][j].pos < |r.cards| && r.cards[r.decks[i][j].pos] == PLACEHOLDER
      {
        var s := r.decks[i][j];
        assert s in r.decks[i];
        RegisteredMembers(st.decks, n, Slot(hand, |st.cards|), i, s);
        if s != Slot(hand, |st.cards|) {
          var j' :| 0 <= j' < |st.decks[i]| && st.decks[i][j'] == s;
        }
      }
    } else if c[0] != '?' {
      assert r.decks == st.decks;
      forall i, j | 0 <= i < |r.decks| && 0 <= j < |r.decks[i]| && r.decks[i][j].hand == hand
        ensures r.decks[i][j].pos < |r.cards| && r.cards[r.decks[i][j].pos] == PLACEHOLDER
      {
        assert st.decks[i][j].pos < |st.cards|;
      }
    }
  }

  lemma {:induction false} ParseSlots(s: string, start: nat, st: Parsed, hand: nat)
    requires WellFormed(s) && start <= |s| && SlotsArePlaceholders(st, hand)
    ensures SlotsArePlaceholders(Parse(s, start, st, hand), hand)
    decreases |s| - start
  {
    if start < |s| {
      var b := ChunkStart(s, start);
      var e := ChunkStop(s, b);
      ChunkIndex(s, b, e);
      ApplyChunkSlots(s[b..e], st, hand);
      ParseSlots(s, e, ApplyChunk(s[b..e], st, hand), hand);
    }
  }

  /**
   * One chunk keeps every slot of the registry in one place only: the
   * position a `?N` chunk registers is past every placeholder of the hand
   * registered so far.
   */
  lemma ApplyChunkUnique(c: string, st: Parsed, hand: nat)
    requires |c| >= 1 && (c[0] == '?' ==> Atoi(c[1..]) >= 0)
    requires SlotsArePlaceholders(st, hand) && Unique(st.decks)
    ensures Unique(ApplyChunk(c, st, hand).decks)
  {
    if c[0] == '?' && Atoi(c[1..]) < DECK_SIZE {
      var slot := Slot(hand, |st.cards|);
      forall k | 0 <= k < |st.decks|
        ensures slot !in st.decks[k]
      {
        forall a | 0 <= a < |st.decks[k]|
          ensures st.decks[k][a] != slot
        {
        }
      }
      RegisteredUnique(st.decks, Atoi(c[1..]), slot);
    }
  }

  /** Reading a line keeps every slot of the registry in one place only. */
  lemma {:induction false} ParseUnique(s: string, start: nat, st: Parsed, hand: nat)
    requires WellFormed(s) && start <= |s| && SlotsArePlaceholders(st, hand) && Unique(st.decks)
    ensures Unique(Parse(s, start, st, hand).decks)
    decreases |s| - start
  {
    if start < |s| {
      var b := ChunkStart(s, start);
      var e := ChunkStop(s, b);
      ChunkIndex(s, b, e);
      ApplyChunkSlots(s[b..e], st, hand);
      ApplyChunkUnique(s[b..e], st, hand);
      ParseUnique(s, e, ApplyChunk(s[b..e], st, hand), hand);
    }
  }

  /**
   * hand_from_string for a new hand (one no slot of the registry names yet)
   * leaves a registry in which every slot is registered once, so all slots
   * under one index resolve to the same deck card.
   */
  lemma HandTableUnique(str: string, decks: seq<seq<Slot>>, hand: nat)
    requires WellFormed(str) && Unique(decks)
    requires forall i, j :: 0 <= i < |decks| && 0 <= j < |decks[i]| ==> decks[i][j].hand != hand
    ensures Unique(Parse(str, 0, Parsed([], decks), hand).decks)
  {
    ParseUnique(str, 0, Parsed([], decks), hand);
  }

  /** A `?N` chunk with N below the deck size: one placeholder more, its position registered under N. */
  lemma ApplyFuture(c: string, st: Parsed, hand: nat)
    requires |c| >= 1 && c[0] == '?' && 0 <= Atoi(c[1..]) < DECK_SIZE
    ensures ApplyChunk(c, st, hand).cards == st.cards + [PLACEHOLDER]
    ensures |ApplyChunk(c, st, hand).decks| == if Atoi(c[1..]) < |st.decks| then |st.decks| else Atoi(c[1..]) + 1
    ensures ApplyChunk(c, st, hand).decks[Atoi(c[1..])] ==
            (if Atoi(c[1..]) < |st.decks| then st.decks[Atoi(c[1..])] else []) + [Slot(hand, |st.cards|)]
    ensures forall k :: 0 <= k < |st.decks| && k != Atoi(c[1..]) ==> ApplyChunk(c, st, hand).decks[k] == st.decks[k]
  {
    RegisteredShape(st.decks, Atoi(c[1..]), Slot(hand, |st.cards|));
  }

  /** A `?N` chunk with N of the deck size or more, or a chunk that is no valid card, changes nothing. */
  lemma ApplySkipped(c: string, st: Parsed, hand: nat)
    requires |c| >= 1 && (c[0] == '?' ==> Atoi(c[1..]) >= 0)
    requires if c[0] == '?' then Atoi(c[1..]) >= DECK_SIZE
             else !IsCardValid(CardFromLetters(c[0], if |c| > 1 then c[1] else '\0'))
    ensures ApplyChunk(c, st, hand) == st
  {
  }

  /** A valid card chunk appends that card and leaves the registry alone. */
  lemma ApplyCard(c: string, st: Parsed, hand: nat)
    requires |c| >= 2 && c[0] != '?' && IsCardValid(CardFromLetters(c[0], c[1]))
    ensures ApplyChunk(c, st, hand) == Parsed(st.cards + [CardFromLetters(c[0], c[1])], st.decks)
  {
  }

  /** A two-token line, "As ?3": the ace of spades, then a placeholder registered under 3. */
  lemma ParseExample()
    ensures WellFormed("As ?3")
    ensures Parse("As ?3", 0, Parsed([], []), 0) ==
            Parsed([Card(VALUE_ACE, SPADES), PLACEHOLDER], [[], [], [], [Slot(0, 1)]])
  {
    var s := "As ?3";
    ExampleWellFormed();
    ExampleChunks();
    ExampleCards();
    var st1 := Parsed([Card(VALUE_ACE, SPADES)], []);
    var st2 := Parsed([Card(VALUE_ACE, SPADES), PLACEHOLDER], [[], [], [], [Slot(0, 1)]]);
    assert s[0..2] == "As" && s[3..5] == "?3";
    assert Parse(s, 5, st2, 0) == st2;
    assert Parse(s, 2, st1, 0) == st2;
  }

  lemma ExampleWellFormed()
    ensures WellFormed("As ?3")
  {
    assert "As ?3"[1] == 's' && "As ?3"[2] == ' ' && "As ?3"[3] == '?';
  }

  lemma ExampleChunks()
    requires WellFormed("As ?3")
    ensures ChunkStart("As ?3", 0) == 0 && ChunkStop("As ?3", 0) == 2
    ensures ChunkStart("As ?3", 2) == 3 && ChunkStop("As ?3", 3) == 5
  {
    var s := "As ?3";
    assert TokenEnd(s, 0) == 2;
    assert TokenEnd(s, 3) == 5;
  }

  lemma ExampleCards()
    ensures ApplyChunk("As", Parsed([], []), 0) == Parsed([Card(VALUE_ACE, SPADES)], [])
    ensures ApplyChunk("?3", Parsed([Card(VALUE_ACE, SPADES)], []), 0) ==
            Parsed([Card(VALUE_ACE, SPADES), PLACEHOLDER], [[], [], [], [Slot(0, 1)]])
  {
    assert "?3"[1..] == "3" && Atoi("3") == 3;
    RegisteredShape([], 3, Slot(0, 1));
    var reg := Registered([], 3, Slot(0, 1));
    assert |reg| == 4 && reg[0] == [] && reg[1] == [] && reg[2] == [] && reg[3] == [Slot(0, 1)];
    assert reg == [[], [], [], [Slot(0, 1)]];
  }

  // ---------------------------------------------------------------------------
  // hand_from_string on lines with runs of whitespace

  /** A chunk ApplyChunk can take. */
  predicate Chunk(c: string) {
    |c| >= 1 && (c[0] == '?' ==> Atoi(c[1..]) >= 0)
  }

  /** A token starts at `start`, or just after the one whitespace character a round skips. */
  predicate FreshChunkAt(s: string, start: nat)
    requires start < |s|
  {
    var b := if IsWhiteSpace(s[start]) then start + 1 else start;
    b < |s| && !IsWhiteSpace(s[b])
  }

  /**
   * hand_from_string as written, on any readable line. Each round skips
   * one whitespace character. When no token starts after it (a second
   * whitespace character, or the end of the line) nothing is copied, and
   * the token buffer `buf` still holds the previous chunk, which is applied
   * again.
   */
  function ParseAsWritten(s: string, start: nat, st: Parsed, hand: nat, buf: string): Parsed
    requires Readable(s) && start <= |s|
    requires start < |s| && !FreshChunkAt(s, start) ==> Chunk(buf)
    decreases |s| - start
  {
    if start == |s| then st
    else
      var b := if IsWhiteSpace(s[start]) then start + 1 else start;
      if b < |s| && !IsWhiteSpace(s[b]) then
        var e := ChunkStop(s, b);
        ChunkIndex(s, b, e);
        ParseAsWritten(s, e, ApplyChunk(s[b..e], st, hand), hand, s[b..e])
      else
        ParseAsWritten(s, b, ApplyChunk(buf, st, hand), hand, buf)
  }

  /** On a well-formed line a token follows every whitespace character, and the as-written reading is Parse. */
  lemma {:induction false} AsWrittenOnWellFormed(s: string, start: nat, st: Parsed, hand: nat, buf: string)
    requires WellFormed(s) && start <= |s|
    ensures start < |s| ==> FreshChunkAt(s, start)
    ensures ParseAsWritten(s, start, st, hand, buf) == Parse(s, start, st, hand)
    decreases |s| - start
  {
    if start < |s| {
      var b := ChunkStart(s, start);
      var e := ChunkStop(s, b);
      ChunkIndex(s, b, e);
      AsWrittenOnWellFormed(s, e, ApplyChunk(s[b..e], st, hand), hand, s[b..e]);
    }
  }

  /** As written, a whitespace character with no token after it applies the previous chunk once more. */
  lemma AsWrittenRepeats(s: string, start: nat, st: Parsed, hand: nat, buf: string)
    requires Readable(s) && start < |s| && IsWhiteSpace(s[start]) && Chunk(buf)
    requires start + 1 == |s| || IsWhiteSpace(s[start + 1])
    ensures ParseAsWritten(s, start, st, hand, buf) ==
            ParseAsWritten(s, start + 1, ApplyChunk(buf, st, hand), hand, buf)
  {
  }

  /** The chunks of "As  Kd": `As` at 0..2, a run of two spaces, and `Kd` at 4..6. */
  lemma DoubleSpaceChunks()
    ensures Readable("As  Kd")
    ensures !IsWhiteSpace("As  Kd"[0]) && IsWhiteSpace("As  Kd"[2]) && IsWhiteSpace("As  Kd"[3])
    ensures !IsWhiteSpace("As  Kd"[4])
    ensures ChunkStop("As  Kd", 0) == 2 && ChunkStop("As  Kd", 4) == 6
    ensures SkipSpace("As  Kd", 0) == 0 && SkipSpace("As  Kd", 2) == 4
    ensures "As  Kd"[0..2] == "As" && "As  Kd"[4..6] == "Kd"
  {
    var s := "As  Kd";
    assert s[0] == 'A' && s[1] == 's' && s[2] == ' ' && s[3] == ' ' && s[4] == 'K' && s[5] == 'd';
    assert TokenEnd(s, 0) == 2 && TokenEnd(s, 4) == 6;
  }

  /** The cards the chunks `As` and `Kd` append. */
  lemma DoubleSpaceCards(cards: seq<Card>)
    ensures ApplyChunk("As", Parsed(cards, []), 0) == Parsed(cards + [Card(VALUE_ACE, SPADES)], [])
    ensures ApplyChunk("Kd", Parsed(cards, []), 0) == Parsed(cards + [Card(VALUE_KING, DIAMONDS)], [])
  {
  }

  /** As written, the line "As  Kd" reads the ace of spades twice. */
  lemma AsWrittenDoubleSpace()
    ensures Readable("As  Kd") && FreshChunkAt("As  Kd", 0)
    ensures ParseAsWritten("As  Kd", 0, Parsed([], []), 0, "") ==
            Parsed([Card(VALUE_ACE, SPADES), Card(VALUE_ACE, SPADES), Card(VALUE_KING, DIAMONDS)], [])
  {
    var s := "As  Kd";
    var ace, king := Card(VALUE_ACE, SPADES), Card(VALUE_KING, DIAMONDS);
    DoubleSpaceChunks();
    DoubleSpaceCards([]);
    DoubleSpaceCards([ace]);
    DoubleSpaceCards([ace, ace]);
    assert [ace] + [ace] == [ace, ace] && [ace, ace] + [king] == [ace, ace, king];
    assert ParseAsWritten(s, 3, Parsed([ace, ace], []), 0, "As") == Parsed([ace, ace, king], []);
    assert ParseAsWritten(s, 2, Parsed([ace], []), 0, "As") == Parsed([ace, ace, king], []);
  }

  /** The reading evidently intended: every run of whitespace between tokens is skipped. */
  function ParseSkipping(s: string, start: nat, st: Parsed, hand: nat): Parsed
    requires Readable(s) && start <= |s|
    decreases |s| - start
  {
    if start == |s| then st
    else
      var b := SkipSpace(s, start);
      if b == |s| then st
      else
        var e := ChunkStop(s, b);
        ChunkIndex(s, b, e);
        ParseSkipping(s, e, ApplyChunk(s[b..e], st, hand), hand)
  }

  lemma {:induction false} SkipSpaceRun(s: string, i: nat, j: nat)
    requires i <= j <= |s| && forall k :: i <= k < j ==> IsWhiteSpace(s[k])
    ensures SkipSpace(s, i) == SkipSpace(s, j)
    decreases j - i
  {
    if i < j {
      SkipSpaceRun(s, i + 1, j);
    }
  }

  /** With runs skipped, a run of whitespace reads as nothing. */
  lemma SkippingIgnoresRuns(s: string, i: nat, j: nat, st: Parsed, hand: nat)
    requires Readable(s) && i <= j <= |s| && forall k :: i <= k < j ==> IsWhiteSpace(s[k])
    ensures ParseSkipping(s, i, st, hand) == ParseSkipping(s, j, st, hand)
  {
    SkipSpaceRun(s, i, j);
  }

  /** On a well-formed line, skipping runs is Parse, the reading the rest of the model uses. */
  lemma {:induction false} SkippingOnWellFormed(s: string, start: nat, st: Parsed, hand: nat)
    requires WellFormed(s) && start <= |s|
    ensures ParseSkipping(s, start, st, hand) == Parse(s, start, st, hand)
    decreases |s| - start
  {
    if start < |s| {
      var b := ChunkStart(s, start);
      if IsWhiteSpace(s[start]) {
        assert SkipSpace(s, start + 1) == start + 1;
      }
      assert SkipSpace(s, start) == b;
      var e := ChunkStop(s, b);
      ChunkIndex(s, b, e);
      SkippingOnWellFormed(s, e, ApplyChunk(s[b..e], st, hand), hand);
    }
  }

  /** With runs skipped, "As  Kd" reads the ace of spades and the king of diamonds. */
  lemma SkippingDoubleSpace()
    ensures Readable("As  Kd")
    ensures ParseSkipping("As  Kd", 0, Parsed([], []), 0) ==
            Parsed([Card(VALUE_ACE, SPADES), Card(VALUE_KING, DIAMONDS)], [])
  {
    var s := "As  Kd";
    var ace, king := Card(VALUE_ACE, SPADES), Card(VALUE_KING, DIAMONDS);
    DoubleSpaceChunks();
    DoubleSpaceCards([]);
    DoubleSpaceCards([ace]);
    assert [ace] + [king] == [ace, king];
    assert ParseSkipping(s, 2, Parsed([ace], []), 0) == Parsed([ace, king], []);
  }

}
