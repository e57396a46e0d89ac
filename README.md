# Poker hand evaluation, modelled in Dafny

This project models the core of a C poker-hand evaluator. That program reads hands of known cards and future-card placeholders (`?0`, `?1`, ...) such as `As Kd ?0 ?1 ?2`, one hand per line. It builds the deck of cards the hands leave over. It deals that deck out to the placeholders, so every placeholder that shares an index receives the same card. It then evaluates each hand into a ranking with five deciding cards and compares the hands.

The model follows the program file by file:

- `cards.dfy` (cards.c): the card as a value/suit pair, validity, the two-letter text encoding, the enumeration 0..51 and the ranking names.
- `deck.dfy` (deck.c): `Deck`, a class whose `cards` sequence the methods grow in place; the full deck; the deck without some cards; the deck that remains after the cards of several hands are taken out.
- `future.dfy` (future.c): `FutureCards`, the table of placeholder slots per future-card index, and the broadcast of a deck's cards into those slots.
- `handorder.dfy`, `matchcounts.dfy`, `straights.dfy` and `evaluator.dfy` (eval.c):
  - the sort order of a hand;
  - flush detection and match counts;
  - the straight search;
  - `evaluate_hand`;
  - `compare_hands`.
- `input.dfy` (input.c): whitespace, trimming a line, and turning a line into a hand while registering its placeholders.

Conventions:

- The suits are numbered CLUBS = 0, DIAMONDS = 1, HEARTS = 2, SPADES = 3. This is the order card_ptr_comp's comment gives and the order card_from_num produces. The headers that define the enums are not part of this model.
- A "pick" is a position in the sorted hand. The C code stores card pointers, and card_in_card_array compares pointers, which amounts to comparing positions.
- A future-card pointer is a `Slot(hand, pos)`: the position `pos` in the hand with index `hand`, as the hand was read (see "Left out").

Each loop of the source is a method with loop invariants, proved against a specification function. The properties the program relies on are lemmas about those functions:

- the sorted permutation of a hand is unique;
- the evaluation ranks a hand at least as high as every four of a kind, full house, flush, straight, three of a kind, two pair and pair the hand holds, and names the right five cards for the ranking it reports;
- the evaluation reports a straight flush exactly when the suit flush_suit reports holds a straight; in a hand of at most nine cards only one suit can hold five cards, so there every straight flush is reported;
- the comparison is antisymmetric and independent of card order;
- card encodings round-trip;
- placeholders that share an index receive the same card.

## Model

| member | source | states |
|---|---|---|
| Cards.Ranking.Num | eval.c:286-288 | The enum integer of a ranking is at most 8, with lower meaning stronger; the rank difference compare_hands returns is a difference of these. |
| Cards.RankingNumInjective | eval.c:286-288 | Two rankings have the same enum integer exactly when they are the same ranking, so `rank1 != rank2` is a comparison of integers. |
| Cards.CardValidLetters | cards.c:6-9 | A card is valid exactly when both its value letter and its suit letter are real letters rather than `~`. |
| Cards.PlaceholderInvalid | deck.c:168-194 | The value-0, suit-0 placeholder written for an undealt card is never a valid card. |
| Cards.RankingToString | cards.c:16-39 | Every ranking has a non-empty name. |
| Cards.RankingToStringInjective | cards.c:16-39 | Different rankings have different names. |
| Cards.ValueToInt | cards.c:82-101 | A value letter decodes to 0 (not a value letter) or to a value 2..14. |
| Cards.SuitToInt | cards.c:103-117 | A suit letter decodes to a suit below NUM_SUITS or to the error code 1000. |
| Cards.ValueToIntRecognises | cards.c:82-101 | The decoded value is non-zero exactly for the letters `2`-`9`, `0`, `J`, `Q`, `K` and `A`. |
| Cards.SuitToIntRecognises | cards.c:103-117 | The decoded suit is a real suit exactly for `s`, `h`, `d` and `c`, and is 1000 for every other letter. |
| Cards.ValueLetter | cards.c:41-59 | value_letter returns `~` exactly for a value outside 2..14; otherwise a value letter that decodes back to the value. |
| Cards.SuitLetter | cards.c:61-76 | suit_letter returns `~` exactly for a suit outside the four; otherwise a suit letter that decodes back to the suit. |
| Cards.ValueRoundTrip | cards.c:41-59 | value_letter of a card with value 2..14 is a value letter that decodes back to that value; value 10 is written `0`. |
| Cards.ValueLetterRoundTrip | cards.c:41-59 | Decoding a value letter and encoding the result gives the letter back. |
| Cards.SuitRoundTrip | cards.c:61-76 | suit_letter of a real suit is a suit letter that decodes back to that suit. |
| Cards.SuitLetterRoundTrip | cards.c:61-76 | Decoding a suit letter and encoding the result gives the letter back. |
| Cards.CardFromLetters | cards.c:119-125 | The card built from two letters is valid exactly when the first is a value letter and the second a suit letter. |
| Cards.CardLettersRoundTrip | cards.c:119-125 | Building a card from the letters of a valid card gives that card back. |
| Cards.CardToNum | cards.c:127-133 | The inverse of card_from_num maps a valid card below 52. |
| Cards.CardFromNum | cards.c:127-133 | card_from_num gives a valid card exactly for numbers below 52 (the inverse is `Cards.NumCardRoundTrip`). |
| Cards.CardFromNumValid | cards.c:127-133 | card_from_num of 0..51 is valid, with value `n % 13 + 2` and suit `n / 13`. |
| Cards.CardFromNumInjective | cards.c:127-133 | Different numbers below 52 give different cards. |
| Cards.CardNumRoundTrip | cards.c:127-133 | Numbering a valid card and decoding the number gives the card back. |
| Cards.NumCardRoundTrip | cards.c:127-133 | Decoding a number below 52 and numbering the card gives the number back. |
| Decks.Deck.constructor | deck.c:80-91 | A new deck is empty. |
| Decks.Deck.AddCardTo | deck.c:143-166 | The card becomes the new last card; earlier cards are unchanged. |
| Decks.Deck.AddEmptyCard | deck.c:168-194 | A placeholder becomes the new last card; its position is returned; earlier cards are unchanged. |
| Decks.CardsEqual | deck.c:7-10 | Cards are equal exactly when value and suit both agree. |
| Decks.DeckContains | deck.c:23-30 | Reports true exactly when some position of the deck holds the card. |
| Decks.FullDeck | deck.c:93-128 | The full deck has 52 cards, position i holding card_from_num(i). |
| Decks.FullDeckIsAllValidCards | deck.c:93-128 | A card is in the full deck exactly when it is valid. |
| Decks.FullDeckDistinct | deck.c:93-128 | The full deck holds no card twice. |
| Decks.GenerateNewDeck | deck.c:93-128 | Returns a fresh deck holding the full deck in canonical order. |
| Decks.ExcludeMembers | deck.c:196-224 | A card is in the excluding deck exactly when it is valid and not among the excluded cards. |
| Decks.ExcludeAvoids | deck.c:196-224 | No card of the excluding deck is excluded, and every one is valid. |
| Decks.ExcludeOrdered | deck.c:215-222 | The excluding deck keeps the canonical order 0..51. |
| Decks.ExcludeNothing | deck.c:196-224 | Excluding nothing gives the full deck. |
| Decks.ExcludeEverything | deck.c:196-224 | Excluding every card gives the empty deck. |
| Decks.ExcludeSize | deck.c:196-224 | The excluding deck has 52 cards minus one per different valid excluded card. |
| Decks.NumsOfDistinct | deck.c:196-224 | Different valid cards have different canonical numbers, so n distinct valid cards have n numbers. |
| Decks.ExcludeDistinctSize | deck.c:196-224 | Excluding n different valid cards leaves 52 - n cards. |
| Decks.MakeDeckExclude | deck.c:196-224 | Returns a fresh deck holding, in canonical order, every card not in the excluded deck. |
| Decks.ValidCardsMembers | deck.c:249-255 | Filtering keeps exactly the valid cards of the sequence. |
| Decks.AllCardsMembers | deck.c:247-257 | A card is among the cards of all hands exactly when some hand holds it. |
| Decks.ExcludeIgnoresInvalid | deck.c:251-258 | Leaving placeholders out of the excluded cards does not change the resulting deck. |
| Decks.BuildRemainingDeck | deck.c:227-259 | Returns a fresh deck of every card that no hand holds, in canonical order; the hands' placeholders are skipped. |
| Decks.RemainingDeckMembers | deck.c:227-259 | A card is in the remaining deck exactly when it is valid and no hand holds it. |
| Decks.RemainingDeckExample | deck.c:227-241 | The hands `Kh Qs ?0 ?1 ?2 ?3 ?4` and `As Ac ?0 ?1 ?2 ?3 ?4` leave 48 cards. |
| Decks.AddHandToDeck | deck.c:290-299 | Copies of the hand's cards are appended to the deck in order. |
| Future.Padded | future.c:35-52 | Growing the table to n entries keeps the old entries and adds empty ones. |
| Future.RegisteredShape | future.c:31-54 | Registering a slot under an index grows the table to cover that index, appends the slot to that entry only, and leaves every other entry as it was. |
| Future.RegisteredMembers | future.c:31-54 | After registration an entry holds a slot exactly when it held it before or it is the new slot under the new index. |
| Future.RegisteredAt | future.c:31-54 | Each slot of a registered table is an old slot in the same place, or the new slot at the end of the entry registered under. |
| Future.RegisteredUnique | future.c:31-54 | Registering a slot the table does not hold keeps every slot registered in one place only. |
| Future.FutureCards.constructor | future.c:71-82 | A new registry has no entries. |
| Future.FutureCards.AddFutureCard | future.c:31-54 | The registry's table becomes the table with the slot registered under the index. |
| Future.Contents | future.c:56-69 | The cards of the hands, as a sequence, one entry per hand. |
| Future.WriteAll | future.c:62-66 | Writing a card to a list of slots leaves the shape of the hands unchanged. |
| Future.Resolve | future.c:56-69 | Broadcasting entry i of the table to deck card i leaves the shape of the hands unchanged. |
| Future.WriteAllAt | future.c:62-66 | After the writes, a slot holds the written card when it is in the list and its old card otherwise. |
| Future.ResolveRegistered | future.c:56-69 | After resolution, a slot last registered under index i holds deck card i. |
| Future.ResolveUnregistered | future.c:56-69 | A slot registered under no index keeps its card. |
| Future.SharedIndex | future.c:56-69 | When no slot is registered twice, two placeholders registered under the same index both receive deck card i, so they receive the same card. Tables built by reading hands meet that condition (`Input.HandTableUnique`). |
| Future.WriteSlot | future.c:64-65 | Writing one slot changes exactly that card of that hand. |
| Future.WriteEntry | future.c:62-66 | Writing a card to every slot of one entry gives the hands WriteAll describes. |
| Future.FutureCardsFromDeck | future.c:56-69 | The hands end up as the resolution of the table against the deck's cards. |
| HandOrder.CardPtrComp | eval.c:6-22 | Negative when the first card has the higher value (or the same value and the higher suit); zero exactly for equal cards; positive in the opposite case. |
| HandOrder.CardPtrCompAntisymmetric | eval.c:6-22 | Swapping the cards flips the sign. |
| HandOrder.CardPtrCompTransitive | eval.c:6-22 | The order is transitive. |
| HandOrder.SortedDescByValue | eval.c:282-283 | A hand sorted under card_ptr_comp has non-increasing values. |
| HandOrder.InsertSorted | eval.c:282-283 | Inserting a card into a sorted hand keeps it sorted. |
| HandOrder.SortDesc | eval.c:282-283 | The sorted hand is a permutation of the hand. |
| HandOrder.SortDescSorted | eval.c:282-283 | The sorted hand is sorted under card_ptr_comp. |
| HandOrder.SortedUnique | eval.c:282-283 | Two sorted arrangements of the same cards are equal, so qsort's result is determined. |
| HandOrder.SortDescIdempotent | eval.c:282-283 | Sorting a sorted hand changes nothing. |
| HandOrder.SortDescPermutationInvariant | eval.c:282-283 | The sorted hand depends only on which cards the hand holds. |
| HandOrder.SortHand | eval.c:282-283 | The hand becomes its sorted permutation. |
| MatchCounts.ValueCountZero | eval.c:305-358 | A value occurs zero times exactly when no card has it. |
| MatchCounts.FlushSuitOfSpec | eval.c:24-48 | The flush suit is NUM_SUITS exactly when no suit occurs five times; otherwise that suit occurs at least five times. |
| MatchCounts.FlushSuit | eval.c:24-48 | flush_suit returns the first suit to reach its fifth card, or NUM_SUITS. |
| MatchCounts.GetMatchCounts | eval.c:305-358 | One count per card, each the number of cards of the hand with that card's value. |
| MatchCounts.CountFirst | eval.c:338-346 | At the first card of a value, the count is how many cards have that value. |
| MatchCounts.SpreadCount | eval.c:347-354 | The count is written at i and at every later card of the same value; other counts stay. |
| MatchCounts.Counts | eval.c:305-358 | The match counts as a function: one per card, each the occurrences of that card's value. |
| MatchCounts.MatchCountsExample | eval.c:305-327 | The match counts of `Ks Kh Qs Qh 0s 9d 9c 9h` are 2 2 2 2 1 3 3 3. |
| MatchCounts.TwoSuitCounts | eval.c:24-48 | The cards of two different suits together are no more than the cards of the hand. |
| MatchCounts.SuitCountAtLeast | eval.c:24-48 | A set of positions all holding one suit is no larger than that suit's count. |
| MatchCounts.MaxOf | eval.c:50-65 | The maximum is an element of the sequence and no element exceeds it. |
| MatchCounts.GetLargestElement | eval.c:50-65 | Returns an element of the first n that no element of the first n exceeds. |
| MatchCounts.FirstIndexOf | eval.c:67-84 | The lowest position holding the value. |
| MatchCounts.GetMatchIndex | eval.c:67-84 | Returns the lowest position below n holding n_of_akind. |
| MatchCounts.SecondaryPairFrom | eval.c:86-113 | The first position holding another value whose count is above one, or -1 exactly when there is none. |
| MatchCounts.FindSecondaryPair | eval.c:86-113 | Returns the first position whose value differs from the match and whose count exceeds one, or -1 exactly when there is none. |
| MatchCounts.GroupBlock | eval.c:305-358 | In a sorted hand, all cards of a value first seen at idx are contiguous, and later cards are lower. |
| MatchCounts.ValueCountBySuits | eval.c:305-358 | The count of a value is the sum over the four suits of that card's multiplicity. |
| MatchCounts.ValueCountPermutation | eval.c:305-358 | Match counts do not depend on the order of the cards. |
| Straights.IsNLengthStraightAt | eval.c:116-144 | True exactly when n further cards, each one lower in value than the one before and in the suit wanted, follow the card at index. |
| Straights.IsAceLowStraightAt | eval.c:146-171 | True exactly when the card at index is an ace and a 5 of the suit wanted is followed by 4, 3 and 2. |
| Straights.AceLowFromFive | eval.c:159-170 | A wheel at the ace is exactly a run of three below the first 5 of the suit wanted. |
| Straights.IsStraightAt | eval.c:173-202 | Returns 1 for a five-card run down from index, -1 for a wheel at the ace at index, and 0 otherwise. |
| Straights.StraightRunShape | eval.c:368-385 | The copied run has strictly increasing positions holding values top, top-1, ..., all suited as wanted. |
| Straights.CopyStraight | eval.c:368-385 | copy_straight picks, from ind on, the first card of each next-lower value in the suit wanted. |
| Straights.ScanStraight | eval.c:397-417 | The first position from `from` whose straight kind is wanted, or none when no position qualifies. |
| Straights.StraightPicksShape | eval.c:397-414 | The five picks are distinct suited positions; a regular straight runs down from i, and a wheel puts 5, 4, 3, 2 first and the ace at i last. |
| Straights.CopyFoundStraight | eval.c:399-414 | The cards find_straight copies for the straight found at i. |
| Straights.FindStraight | eval.c:393-419 | find_straight as written: the straight at the first position that starts one, regular or wheel. |
| Straights.FindStraightFinds | eval.c:393-419 | The as-written search finds a straight exactly when some position starts one. |
| Straights.FindBestStraight | eval.c:393-419 | The corrected search: the first regular straight, or else the first wheel. |
| Straights.BestStraightFinds | eval.c:393-419 | The corrected search finds a straight exactly when some position starts one. |
| Straights.BestStraightIsBest | eval.c:393-419 | The corrected search's top card is at least as high as the top of any straight the hand holds. |
| Straights.FindStraightMissesSixHigh | eval.c:393-419 | For A 6 5 4 3 2 the as-written search reports the 5-high wheel although a 6-high straight exists; the corrected search reports 6. |
| Evaluator.PickValues | eval.c:289-295 | The values of the five picked cards, in pick order. |
| Evaluator.Decide | eval.c:425-491 | A straight flush exactly when a flush suit and a straight in it were found; a flush suit guarantees at least a flush, and a straight at least a straight. |
| Evaluator.EvalSpec | eval.c:425-491 | The evaluation of a hand names five cards, and is a straight flush exactly when the hand has a flush suit holding a straight. |
| Evaluator.CardInCardArray | eval.c:204-211 | True exactly when the position is among the first size entries. |
| Evaluator.MatchPicksShape | eval.c:255-272 | The group's n positions come first and then, in increasing order, the lowest positions outside the group. |
| Evaluator.MatchKickersHighest | eval.c:263-272 | Every card left out of a match hand is no higher than each kicker chosen. |
| Evaluator.BuildHandFromMatch | eval.c:213-274 | The ranking given, the n cards from idx, and then the first cards not yet chosen until there are five. |
| Evaluator.SuitPositions | eval.c:452-460 | The positions of a suit in increasing order, all of them. |
| Evaluator.FlushPicksShape | eval.c:449-462 | The flush is five different cards of the flush suit, and every other card of that suit is no higher. |
| Evaluator.CopyFlush | eval.c:449-462 | The loop copies the first five cards of the flush suit. |
| Evaluator.DecideCases | eval.c:425-491 | Each branch of evaluate_hand, tried in order, and the evaluation it returns. |
| Evaluator.DecideOutcome | eval.c:425-491 | Each ranking reported implies the findings that lead to it and fixes its picks. |
| Evaluator.DecideRanking | eval.c:425-491 | A straight flush is reported exactly when one is found; four, three of a kind, a flush, a straight or a pair each guarantee at least that ranking; Nothing exactly when nothing was found. |
| Evaluator.DecideFullHouse | eval.c:440-448 | Three of a kind beside a second pair, or four of a kind, decide at least a full house. |
| Evaluator.DecideTwoPair | eval.c:440-486 | A match of two or more beside a second pair decides at least two pair. |
| Evaluator.MatchGroup | eval.c:434-437 | The largest count is 1..4; its first card starts a contiguous block of exactly that many cards of one value. |
| Evaluator.OtherGroup | eval.c:438 | A second pair starts a block of at least two cards of another value, outside the first group. |
| Evaluator.EvalPicksValid | eval.c:425-491 | Every evaluation names five different positions of the hand. |
| Evaluator.EvalSpecDecides | eval.c:425-491 | The evaluation is evaluate_hand's decision taken on what its helpers compute for the hand. |
| Evaluator.EvaluateHand | eval.c:425-491 | The evaluation of a sorted hand is the specified one (with the corrected straight search). |
| Evaluator.EvaluateMatches | eval.c:434-491 | Past the straight-flush test, the branches give the decision on the hand's match counts, flush and straight. |
| Evaluator.EvaluateFlushDown | eval.c:449-491 | Past four of a kind and full house, the branches give the decision on the hand's flush and straight. |
| Evaluator.FindGroups | eval.c:434-438 | The largest count, its first index and the second-pair index are the ones the specification names. |
| Evaluator.EvaluateGroups | eval.c:467-490 | With no flush or straight, the branches give three of a kind, two pair, pair or nothing as specified. |
| Evaluator.BuildTwoPair | eval.c:470-486 | Two pair is the pair at match_idx, the pair at other_pair_idx and the kicker choice of 0, 2 or 4. |
| Evaluator.BestStraightShape | eval.c:393-419 | A found straight is five distinct positions with consecutive values (or the wheel), suited as wanted. |
| Evaluator.EvalStraightShape | eval.c:428-432 | A straight or straight flush names five cards of consecutive values; a straight flush's are all in the flush suit. |
| Evaluator.EvalFlushShape | eval.c:449-462 | A flush names five cards of the flush suit, and no other card of that suit is higher. |
| Evaluator.EvalFourShape | eval.c:440-442 | Four of a kind names the four cards of the value and the highest other card. |
| Evaluator.EvalFullHouseShape | eval.c:443-448 | A full house names three cards of a value held three times, then two of the highest other value held at least twice. |
| Evaluator.EvalThreeShape | eval.c:467-469 | Three of a kind names the three cards and two kickers of different values, no card left out being higher. |
| Evaluator.EvalTwoPairShape | eval.c:470-486 | Two pair names the higher pair, the lower pair (the best other pair) and the highest remaining card. |
| Evaluator.TwoPairKickerShape | eval.c:475-484 | The kicker rule (0 when match_idx > 0, else 2 when other_pair_idx > 2, else 4) gives the highest card in neither pair. |
| Evaluator.EvalPairShape | eval.c:487-489 | A pair names the two cards and three kickers of different values, no card left out being higher. |
| Evaluator.EvalNothingShape | eval.c:490 | Nothing names the five highest cards, all of different values. |
| Evaluator.EvalStraightFlushIff | eval.c:426-432 | The hand is a straight flush exactly when there is a flush suit and a straight in that suit. |
| Evaluator.EvalAtLeastStraightFlush | eval.c:24-48 | In a hand of at most nine cards, a straight in any suit makes that suit the one flush_suit reports, and the hand ranks straight flush (the test at eval.c:426-432). |
| Evaluator.EvalRanking | eval.c:425-491 | Lifts DecideRanking to a hand's own findings. |
| Evaluator.EvalOutcome | eval.c:425-491 | Lifts DecideOutcome to a hand's own findings. |
| Evaluator.EvalAtLeastFour | eval.c:440-442 | A hand with four cards of a value ranks at least four of a kind. |
| Evaluator.EvalAtLeastThree | eval.c:443-469 | A hand with three cards of a value ranks at least three of a kind. |
| Evaluator.EvalAtLeastFullHouse | eval.c:443-448 | A hand with three cards of one value and two of another ranks at least full house. |
| Evaluator.EvalAtLeastTwoPair | eval.c:470-486 | A hand with two cards of one value and two of another ranks at least two pair. |
| Evaluator.EvalAtLeastFlush | eval.c:449-462 | A hand with five cards of a suit ranks at least flush. |
| Evaluator.EvalAtLeastStraight | eval.c:463-466 | A hand holding a straight ranks at least straight. |
| Evaluator.EvalAtLeastPair | eval.c:470-489 | A hand with two cards of a value ranks at least pair. |
| Evaluator.EvalNothingIff | eval.c:490 | Nothing exactly when every value occurs once, no suit occurs five times and no straight starts anywhere. |
| Evaluator.SinglesIff | eval.c:434-435 | The largest match count is at most one exactly when every value occurs once. |
| Evaluator.ValueDiff | eval.c:291-297 | Zero exactly when the values agree from `from` on; otherwise the difference at the first place they differ. |
| Evaluator.ValueDiffAntisymmetric | eval.c:291-297 | Swapping the value lists flips the sign. |
| Evaluator.EvaluablePermutation | eval.c:276-285 | Whether a hand can be evaluated does not depend on the order of its cards. |
| Evaluator.CompareHands | eval.c:276-298 | Both hands are sorted in place, and the result is the specified comparison of the original hands. |
| Evaluator.SortHands | eval.c:282-283 | Both hands become their sorted permutations. |
| Evaluator.SortedEvaluable | eval.c:282-285 | A sorted evaluable hand is still evaluable, sorted by value and a fixed point of sorting. |
| Evaluator.CompareSortedHands | eval.c:284-298 | The comparison of two sorted hands as specified. |
| Evaluator.CompareEvals | eval.c:286-298 | The ranking difference when the rankings differ, else the first difference in the picked values. |
| Evaluator.CompareValues | eval.c:289-297 | The loop returns the first difference in the picked values, or 0. |
| Evaluator.CompareHandsAntisymmetric | eval.c:276-298 | Comparing the hands the other way round negates the result. |
| Evaluator.CompareHandsSelf | eval.c:276-298 | A hand ties with itself. |
| Evaluator.CompareHandsOrderFree | eval.c:276-298 | The comparison does not depend on the order of the cards in either hand. |
| Evaluator.CompareSortedByRanking | eval.c:286-298 | With different rankings, hand 1 wins exactly when its ranking is stronger; the hands tie exactly when rankings and picked values agree. |
| Evaluator.CompareOutcome | eval.c:286-298 | The ranking difference is positive exactly when the first ranking is stronger; the result is zero exactly when rankings and values agree. |
| Evaluator.DecideSameRanking | eval.c:425-491 | The ranking decided depends only on whether a straight flush and a straight were found, not on which; outside those two rankings the picks do not depend on them either. |
| Evaluator.AsWrittenSameRanking | eval.c:393-491 | evaluate_hand with find_straight as written reports the same ranking as with the corrected search, and the same picks unless the hand is a straight or a straight flush. |
| Evaluator.FindStraightValid | eval.c:393-419 | The straight find_straight as written returns names five different cards of the hand. |
| Evaluator.AsWrittenPicksValid | eval.c:425-491 | evaluate_hand as written names five different cards of the hand. |
| Evaluator.AsWrittenCompareAgrees | eval.c:276-298 | compare_hands as written and the corrected comparison give the same result unless both hands are straights or both are straight flushes. |
| Input.IsWhiteSpace | input.c:11-14 | No whitespace character is the end-of-string mark, `?`, or a letter of a card. |
| Input.SkipSpace | input.c:18-22 | The first non-whitespace position at or after i, or the end. |
| Input.SkipSpaceBack | input.c:27-31 | The position past the last non-whitespace character before e. |
| Input.Trim | input.c:16-39 | None exactly when the line is all whitespace; otherwise a non-empty slice that neither starts nor ends with whitespace and has only whitespace around it. |
| Input.TrimIdempotent | input.c:16-39 | Trimming a trimmed line changes nothing. |
| Input.TrimHand | input.c:16-39 | trim_hand returns the trimmed line, or NULL for a line of only whitespace. |
| Input.CopyRange | input.c:32-38 | The copy loop produces str[start..end]. |
| Input.AtoiNonNegative | input.c:94 | With no leading minus sign, atoi gives no negative index. |
| Input.Atoi | input.c:94 | On a digit string atoi gives its decimal value; after a `-` or `+` sign, the negated or plain decimal value of the digits. |
| Input.DigitsSnoc | input.c:94 | Scanning digits left to right equals scanning all but the last digit, times ten, plus the last digit. |
| Input.DigitsDecimal | input.c:94 | The left-to-right digit scan gives the decimal value of a digit string. |
| Input.AtoiExample | input.c:94 | atoi of `3` is 3 and of `51` is 51. |
| Input.TokenEnd | input.c:77-81 | The end of the token: the next whitespace or the end of the line. |
| Input.ChunkStop | input.c:82-90 | A chunk is one to three characters, cut at the end of the token. |
| Input.ApplyChunk | input.c:91-117 | A chunk appends at most one card and keeps the cards read before. |
| Input.ApplyFuture | input.c:91-107 | `?N` with N below 52 appends a placeholder and registers it under N, leaving other entries as they were. |
| Input.ApplySkipped | input.c:95-99 | `?N` with N of 52 or more, or a chunk that is not a valid card, changes nothing. |
| Input.ApplyCard | input.c:108-117 | A chunk naming a valid card appends that card. |
| Input.ParseExtends | input.c:71-118 | Reading the rest of a line only appends to the hand. |
| Input.ParseSlots | input.c:100-106 | Every registered slot of the hand points at a placeholder. |
| Input.ApplyChunkUnique | input.c:91-107 | A chunk keeps every slot registered in one place only, because the position a `?N` chunk registers is new. |
| Input.ParseUnique | input.c:71-118 | Reading the rest of a line keeps every slot registered in one place only. |
| Input.HandTableUnique | input.c:58-120 | Reading a new hand into a table where every slot is registered once keeps every slot registered once. |
| Input.HandFromString | input.c:58-120 | The new hand and the registry's table are what reading the line chunk by chunk gives. |
| Input.ReadChunk | input.c:73-90 | One whitespace character is skipped and up to three characters of the token are copied into the buffer, which is then terminated. |
| Input.ParseExample | input.c:58-120 | `As ?3` reads as the ace of spades and a placeholder registered under index 3. |
| Input.AsWrittenOnWellFormed | input.c:71-118 | On a well-formed line a token follows every whitespace character, and the as-written loop, token buffer included, reads what Parse reads. |
| Input.AsWrittenRepeats | input.c:73-90 | As written, a whitespace character followed by another or by the end of the line copies nothing, and the previous chunk is applied again. |
| Input.AsWrittenDoubleSpace | input.c:73-90 | As written, `As  Kd` (two spaces) reads the ace of spades twice and then the king of diamonds. |
| Input.SkipSpaceRun | input.c:18-22 | Skipping whitespace from anywhere inside a run of whitespace reaches the same position. |
| Input.SkippingIgnoresRuns | input.c:73-90 | With whitespace runs skipped, a run of whitespace adds nothing to the hand or the table. |
| Input.SkippingOnWellFormed | input.c:71-118 | On a well-formed line, skipping whitespace runs reads what Parse reads. |
| Input.SkippingDoubleSpace | input.c:73-90 | With whitespace runs skipped, `As  Kd` reads the ace of spades and the king of diamonds. |

## Left out

- shuffle (deck.c:32-45) depends on `rand()` and is left out. The print_* functions, assert_full_deck, free_deck and free_decks are left out because they are output and memory management.
- Decks.BuildRemainingDeck: drops the print_card call (deck.c:253) that build_remaining_deck makes for each card it excludes, because that call is output only.
- MatchCounts.GetLargestElement: requires n >= 1, so the message-and-exit(1) path for an empty array (eval.c:54-58) is left out. evaluate_hand, its only caller, passes the hand's card count, which is at least five.
- card_from_string (input.c:42-56) is left out because hand_from_string does not call it. It dereferences `str[*index++]` (a pointer increment, not an index increment), so it is unused and broken as written.
- read_input (input.c:122-182) is left out because it reads a file. Its per-line steps trim_hand and hand_from_string are modelled; the hand id that a hand's slots carry is a parameter of `Input.HandFromString`.
- Every allocation-failure path is left out, as are NULL results from malloc or realloc, `errno` and stderr messages. Memory is unbounded in the model.
- Decks.Deck.AddCardTo: models add_card_pointer_to_deck too. add_card_pointer_to_deck appends a pointer without copying, while add_card_to appends a copy. A slot is a (hand, position) pair, so `Future.FutureCards.AddFutureCard` appends that reference to the table entry.
- Decks.AddHandToDeck: requires the deck and the hand to be different objects. With the same object for both, the C loop re-reads a growing `n_cards` and would not end.
- Future.FutureCardsFromDeck: requires the deck to hold at least as many cards as the table has entries and every registered slot to lie inside its hand. The C code reads out of bounds otherwise.
- assert_card_valid (cards.c:11-14) discards the result of is_card_valid, so it checks nothing. The model therefore lets `Cards.CardFromLetters` return invalid cards, and its callers test validity, as hand_from_string does.
- HandOrder.SortHand: models qsort as an insertion sort that produces the same result. Sorted arrangements of a set of cards are unique (`HandOrder.SortedUnique`), so qsort's own algorithm does not change what compare_hands sees.
- Evaluator.EvaluateHand: requires a hand of at least five cards, sorted by value, with real suits and at most four of a kind. Those are the conditions that evaluate_hand's assert (eval.c:436) and get_match_index's `exit` path rely on. read_input rejects shorter hands.
- Evaluator.EvaluateHand: uses the corrected straight search `Straights.FindBestStraight` in place of find_straight as written (see Findings). The as-written search is modelled separately as `Straights.FindStraight`.
- Evaluator.CompareHands: like `Evaluator.CompareSortedHands`, compares with the corrected straight search. By `Evaluator.AsWrittenCompareAgrees`, the C result differs from it only when both hands are straights or both are straight flushes. For A♣ 9♥ 6♦ 5♥ 4♠ 3♣ 2♦ against K♦ Q♣ 6♠ 5♦ 4♣ 3♥ 2♠, C compares a 5-high wheel with a 6-high straight and returns a negative number, where the model returns 0. `Evaluator.CompareSortedAsWritten` is the as-written comparison.
- Future.FutureCardsFromDeck: a `Slot(hand, pos)` addresses the position a placeholder had when its hand was read. The C table holds a pointer to the card struct itself. qsort in compare_hands reorders the hand's array of card pointers, so that pointer follows the card to its new place, while a slot keeps the old position. Dealing into a hand after compare_hands has sorted it is therefore not modelled (aliasing and order after sorting).
- Evaluator.BuildHandFromMatch: models only the branch that evaluate_hand takes (eval.c:255-272). The straight and flush branches of build_hand_from_match (eval.c:227-254) are never reached from evaluate_hand: straights come from find_straight and the flush from evaluate_hand's own loop.
- The five-card buffer of hand_eval_t is a sequence of positions, not an array of pointers.
- Evaluator.CompareValues: models `val1 - val2` as an integer difference. In C the unsigned subtraction wraps and the result is converted to `int`, which gives the same sign for card values 2..14.
- Input.IsWhiteSpace: compares characters by code point. In C, codes 133 and 160 cannot equal a plain (signed) `char`, so on such platforms those branches never match.
- Input.HandFromString: requires a well-formed line:
  - no end-of-string character inside the line;
  - no run of whitespace and no trailing whitespace, which is what trim_hand leaves when the tokens are separated by single spaces;
  - no `?` followed by a minus sign.

  On a line with a run of whitespace or trailing whitespace the C loop applies a stale token buffer again; `Input.ParseAsWritten` models that on every readable line (see Findings), and `Input.ParseSkipping` is the corrected reading. A line with an end-of-string character inside it, or a `?` followed by a minus sign (a negative index), is not modelled.
- Evaluator.EvalAtLeastStraightFlush: requires at most nine cards. In a larger hand two suits can hold five cards each. evaluate_hand then looks for a straight flush only in the first suit to reach five cards (eval.c:24-48, eval.c:428-432), so K♠ Q♠ 9♠ 9♥ 8♥ 7♠ 7♥ 6♥ 5♠ 5♥ is a flush, and `Evaluator.EvalStraightFlushIff` states exactly that.
- Input.Atoi: models atoi for an optional sign followed by decimal digits. Leading whitespace and overflow cannot occur in a chunk of at most three characters.
- Strings are modelled as sequences without the terminating NUL. trim_hand returns the trimmed text as a value, not a freshly allocated buffer.

## Findings

| source | as written | input that shows it | evidently intended | confidence | as-written member | corrected member |
|---|---|---|---|---|---|---|
| eval.c:393-419 | find_straight returns the straight at the first index where is_straight_at is non-zero. A wheel is reported at its ace, index 0, before any higher straight later in the hand. | The sorted hand A 6 5 4 3 2: index 0 gives the 5-high wheel, while index 1 starts a 6-high straight. | The highest straight the hand holds, i.e. the 6-high straight. | not executed | Straights.FindStraight, Straights.FindStraightMissesSixHigh, Evaluator.AsWrittenSameRanking, Evaluator.AsWrittenCompareAgrees | Straights.FindBestStraight, Straights.BestStraightIsBest |
| input.c:73-90 | Each round skips one whitespace character. When no token starts after it, nothing is copied, and the chunk left in the buffer `c` is applied again. | `As  Kd` (two spaces) reads the ace of spades twice; `As ` (trailing space), if trim_hand were not called first, likewise. | Skip every run of whitespace, so `As  Kd` reads two cards. | not executed | Input.ParseAsWritten, Input.AsWrittenRepeats, Input.AsWrittenDoubleSpace | Input.ParseSkipping, Input.SkippingIgnoresRuns, Input.SkippingOnWellFormed, Input.SkippingDoubleSpace |
