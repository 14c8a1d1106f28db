# pyequity: hand ranges and the collision filter, in Dafny

pyequity is a poker equity calculator. A player's range is a list of tokens
such as `"JJ+"`, `"A5s+"`, `"66-33"` or `"J5o-J3o"`. The calculator expands
each token into rank specs (`"88"`, `"75s"`, `"76o"`) and turns every spec
into concrete two-card hands. The cards are strings of a rank symbol and a
suit letter, such as `"Ah"`. It then multiplies the players' hand lists out,
skips every combination in which a card would be dealt twice, and passes each
remaining combination to the evaluator `pe.poker_eval`. As written, the file
imports `pokereval` (pyequity.py:5) but never binds the name `pe`, so the
first surviving combination raises NameError at pyequity.py:130 or 132.

This project models the part of `pyequity.py` that runs before the evaluator
is called. It proves what that part produces: the combinations the loop would
pass to the evaluator if `pe` were bound.

- `Cards` (cards.dfy): suits, the card format `'%s%s' % (rank, suit)` and
  `ranks.index` over the 13-symbol rank table.
- `Seqs` (seqs.dfy): facts about sequences without repeats, including the
  meaning of `len(s) == len(set(s))`.
- `Hands` (hands.dfy): the three suit tables exactly as the source lists
  them, the instantiators `make_pair_hands`, `make_suited_hands`,
  `make_offsuited_hands` and the dispatcher `make_hands`.
- `Ranges` (ranges.dfy): `hands_from_range`, i.e. the token dispatch on
  length 2/3/4/5/7, its loop bounds, and the concatenation of `make_hands`
  over the specs.
- `Combinations` (combinations.dfy): `itertools.product` with the first
  player varying slowest, the flattening of a combination into `lpck`, and
  the `continue` on a repeated card (pyequity.py:121-127).

Every loop of the source before the evaluator call is a Dafny method with a
loop. Each method is proved equal to a specification function: `Deal`, `Expand`, `ExpandAll`,
`HandsOfAll`, `Product`, `Flatten`, `Survivors`. The properties are lemmas
about those functions.

Behaviour of the code worth knowing:

- The pair table has 12 ordered suit pairs and the offsuit table 24
  entries. Each ordered pair of different suits appears once and twice,
  respectively. So every pair hand is listed twice, once in each card
  order (`["5c", "5s"]` and `["5s", "5c"]`), and every offsuit hand is
  listed twice in the same card order.
- A token of any length other than 2, 3, 4, 5 or 7 is silently ignored
  (`Ranges.OtherLengthsIgnored`); it raises no error.
- There is no pinned two-card literal. `"KhQc"` has length 4 and is read as
  a kicker range, for which `ranks.index('h')` raises.
- The filter raises no error for an empty hand list or for a product with
  no survivors; it simply yields nothing. `compute_equity` then divides by
  zero at pyequity.py:140.
- `"JJ+"` yields 4 pair specs and 12 hands per spec, 48 hands in all
  (`Ranges.OpenPairRangeCount`), not the 4 × 6 = 24 one might count.
- The open kicker range ignores the pivot: the kicker climbs to the king
  whatever the pivot is, so `"KQs+"` yields `"KQs"` and `"KKs"`, and every
  hand of `"KKs"` holds one card twice, so the filter always drops it
  (`Ranges.PivotKickerExample`).
- The comment at pyequity.py:28 lists the suited hands in the order c, s,
  h, d. The table at line 29 yields them in the order c, h, d, s
  (`Hands.SuitedExample`).

## Model

| member | source | states |
|---|---|---|
| `Cards.FormatInjective` | pyequity.py:19-20 | two formatted cards are equal exactly when rank and suit are equal |
| `Cards.Letter` | pyequity.py:19-20 | defined as the suit letter `'c'`, `'s'`, `'h'` or `'d'` of a suit |
| `Cards.Format` | pyequity.py:19-20 | defined as `'%s%s' % (rank, suit)`: the rank symbol followed by the suit letter |
| `Cards.SuitOf` | pyequity.py:19-20 | a character names a suit exactly when it is one of `c`, `s`, `h`, `d`, and then it is that suit's letter |
| `Cards.ParseCard` | pyequity.py:19-20 | a card string reads back exactly when it has two characters and a suit letter second, and formatting the result gives the string again |
| `Cards.FormatRoundTrip` | pyequity.py:19-20 | reading back `'%s%s' % (rank, suit)` gives the rank and suit it was made from |
| `Cards.IndexIn` | pyequity.py:95 | `tuple.index` returns a position holding the symbol, and no earlier position holds it |
| `Cards.IndexOf` | pyequity.py:88-107 | `ranks.index(c)` is a rank index 0..12 whose symbol is `c` |
| `Cards.IndexOfRank` | pyequity.py:88 | the rank table has no repeated symbol, so `ranks.index(ranks[i]) == i` |
| `Seqs.DistinctIffCardinality` | pyequity.py:126 | `len(s) == len(set(s))` holds exactly when no element occurs twice; otherwise the set is smaller |
| `Hands.HandOf` | pyequity.py:17-22 | defined as the hand of one table entry: the first rank with the entry's first suit letter, then the second rank with its second |
| `Hands.Deal` | pyequity.py:16-23 | defined as one `HandOf` per table entry, in table order |
| `Hands.PairHands` | pyequity.py:7-23 | defined as `Deal` of the 12-entry pair table with both ranks `cards[0]` |
| `Hands.SuitedHands` | pyequity.py:25-38 | defined as `Deal` of the 4-entry suited table with ranks `cards[0]`, `cards[1]` |
| `Hands.OffsuitedHands` | pyequity.py:40-59 | defined as `Deal` of the 24-entry offsuit table with ranks `cards[0]`, `cards[1]` |
| `Hands.HandsOf` | pyequity.py:61-69 | defined as the pair hands for length 2, the suited hands when `cards[2] == 's'`, the offsuit hands otherwise |
| `Hands.MakePairHands` | pyequity.py:7-23 | the loop appends, in table order, one hand per pair-table entry, both cards of rank `cards[0]` |
| `Hands.MakeSuitedHands` | pyequity.py:25-38 | the loop appends one hand per suited-table entry, with ranks `cards[0]` and `cards[1]` |
| `Hands.MakeOffsuitedHands` | pyequity.py:40-59 | the loop appends one hand per offsuit-table entry, with ranks `cards[0]` and `cards[1]` |
| `Hands.MakeHands` | pyequity.py:61-69 | length 2 gives the pair hands, a third character `'s'` the suited hands, anything else the offsuit hands |
| `Hands.PairSuitsEntries` | pyequity.py:11-14 | the pair table never repeats an entry, never repeats a suit within an entry, and lists every ordered pair of different suits |
| `Hands.PairSuitsTable` | pyequity.py:11-14 | the pair table has 12 entries, each of two different suits, and each ordered pair of different suits occurs exactly once |
| `Hands.SuitedSuitsTable` | pyequity.py:29 | the suited table has 4 entries, each repeating one suit, and each suit occurs exactly once |
| `Hands.OffsuitHalves` | pyequity.py:44-50 | the offsuit table is the pair table followed by a second block of 12 |
| `Hands.OffsuitSecondHalfEntries` | pyequity.py:48-49 | the second block has no repeated entry, no entry of equal suits, and lists every ordered pair of different suits |
| `Hands.OffsuitSuitsTable` | pyequity.py:44-50 | the offsuit table has 24 entries, none of equal suits, and every ordered pair of different suits occurs exactly twice |
| `Hands.DealCards` | pyequity.py:15-22 | every appended hand is two 2-character cards of the given ranks; suit letters differ or agree as they do in every table entry |
| `Hands.DealCount` | pyequity.py:15-22 | a hand occurs among the appended hands as often as its suit pair occurs in the table |
| `Hands.PairHandsProperties` | pyequity.py:7-23 | `make_pair_hands` gives 12 hands, both cards of rank `cards[0]` with different suits, and each ordered pair of distinct suits exactly once |
| `Hands.SuitedHandsProperties` | pyequity.py:25-38 | `make_suited_hands` gives 4 hands of ranks `cards[0]`, `cards[1]` sharing one suit, and each suit exactly once |
| `Hands.OffsuitedHandsProperties` | pyequity.py:40-59 | `make_offsuited_hands` gives 24 hands, no hand with equal suits, and each ordered pair of distinct suits exactly twice |
| `Hands.SuitedCardsDistinct` | pyequity.py:25-38 | a suited hand holds two different cards exactly when the spec names two different ranks |
| `Hands.HandsOfCount` | pyequity.py:61-69 | `make_hands` selects the instantiator by shape, so it gives 12, 4 or 24 hands |
| `Hands.SuitedExample` | pyequity.py:28-29 | '75s' gives 7c5c, 7h5h, 7d5d, 7s5s: the hands of the comment, but in another order |
| `Hands.PairExample` | pyequity.py:10-14 | '55' begins 5c5s, 5c5h, 5c5d, 5s5c, as the comment says |
| `Ranges.WellIndexed` | pyequity.py:95-106 | defined as: every character `ranks.index` reads for the token's length is a rank symbol (the admitted precondition, see "Left out") |
| `Ranges.PairSpec` | pyequity.py:96 | defined as `ranks[rank] * 2` |
| `Ranges.KickerSpec` | pyequity.py:101 | defined as `'%s%s%s' % (pivot, ranks[rank], shape)` |
| `Ranges.HandsOfAll` | pyequity.py:109-111 | defined as `make_hands` of each spec, concatenated in spec order |
| `Ranges.RangeHands` | pyequity.py:71-112 | defined as `HandsOfAll` of `ExpandAll` of the tokens |
| `Ranges.PairSpan` | pyequity.py:95-96 | `range(lo, hi)` of pair specs: `hi - lo` entries (none when `hi <= lo`), the k-th the pair of rank `lo + k` |
| `Ranges.KickerSpan` | pyequity.py:100-101 | `range(lo, hi)` of kicker specs: `hi - lo` entries, the k-th with kicker rank `lo + k` and pivot and shape fixed |
| `Ranges.Expand` | pyequity.py:89-107 | every spec a token yields has 2 or 3 characters |
| `Ranges.ExpandAll` | pyequity.py:89-107 | every spec in the `cards` list has 2 or 3 characters, so `make_hands` can index it |
| `Ranges.AppendPairs` | pyequity.py:95-96 | the pair loop appends exactly the pair specs of `range(lo, hi)` to `cards` |
| `Ranges.AppendKickers` | pyequity.py:100-101 | the kicker loop appends exactly the kicker specs of `range(lo, hi)` to `cards` |
| `Ranges.AppendExpansion` | pyequity.py:90-107 | one pass of the length dispatch appends the token's expansion to `cards` |
| `Ranges.ExpandTokens` | pyequity.py:87-107 | the first loop leaves the specs of all tokens in `cards`, in token order |
| `Ranges.HandsOfSpecs` | pyequity.py:109-111 | the second loop leaves `make_hands` of every spec in `hands`, concatenated in order |
| `Ranges.HandsFromRange` | pyequity.py:71-112 | `hands_from_range` returns the hands of all specs of all tokens, in order |
| `Ranges.PairSpanRanks` | pyequity.py:95-96 | the k-th pair spec of a span is two equal rank symbols of rank index `lo + k` |
| `Ranges.KickerSpanRanks` | pyequity.py:100-101 | the k-th kicker spec keeps pivot and shape, and its kicker has rank index `lo + k` |
| `Ranges.OpenPairRange` | pyequity.py:94-96 | "XX+" gives the pairs from X up to AA, ascending, one per rank, no gaps or repeats |
| `Ranges.BoundedPairRange` | pyequity.py:102-104 | "XX-YY" gives the pairs from index(Y) through index(X) inclusive, ascending, and nothing exactly when X is below Y |
| `Ranges.InclusivePairSpan` | pyequity.py:103-104 | `range(lo, hi + 1)` of pairs is empty exactly when `hi < lo`, and otherwise covers `lo..hi` |
| `Ranges.OpenKickerRange` | pyequity.py:99-101 | "PKs+" keeps pivot and shape, runs the kicker from index(K) up to index 11, and never yields an ace kicker |
| `Ranges.BoundedKickerRange` | pyequity.py:105-107 | "PXs-PYs" keeps pivot and shape and runs the kicker from index(Y) through index(X); empty exactly when X is below Y |
| `Ranges.PivotKickerExample` | pyequity.py:99-101 | 'KQs+' gives KQs, KKs, and every hand of 'KKs' holds one card twice |
| `Ranges.LiteralTokens` | pyequity.py:91-98 | a 2-character token, or a 3-character one not ending in '+', is passed through unchanged |
| `Ranges.OpenPairExample` | pyequity.py:78 | 'QQ+' gives QQ, KK, AA |
| `Ranges.OpenSuitedKickerExample` | pyequity.py:79 | 'AJs+' gives AJs, AQs, AKs |
| `Ranges.OpenOffsuitKickerExample` | pyequity.py:80 | 'AJo+' gives AJo, AQo, AKo |
| `Ranges.BoundedPairExample` | pyequity.py:81 | '66-33' gives 33, 44, 55, 66 |
| `Ranges.BoundedOffsuitKickerExample` | pyequity.py:82 | 'J5o-J3o' gives J3o, J4o, J5o |
| `Ranges.BoundedSuitedKickerExample` | pyequity.py:83 | 'J5s-J3s' gives J3s, J4s, J5s |
| `Ranges.KingsUpExample` | pyequity.py:74 | 'KK+' gives KK, AA |
| `Ranges.FoursDownExample` | pyequity.py:74 | '44-22' gives 22, 33, 44 |
| `Ranges.TokenListExample` | pyequity.py:74 | ['KK+', '44-22'] gives KK, AA followed by 22, 33, 44 |
| `Ranges.ExpandAllTwo` | pyequity.py:89-107 | two tokens give the first token's specs, then the second's |
| `Ranges.ExpandAllConcat` | pyequity.py:89-107 | the specs of a token list are the specs of its parts, in order |
| `Ranges.HandsOfAllConcat` | pyequity.py:109-111 | the hands of a spec list are the hands of its parts, in order |
| `Ranges.RangeHandsConcat` | pyequity.py:89-112 | `hands_from_range(a + b)` is `hands_from_range(a) + hands_from_range(b)`: concatenation in token order |
| `Ranges.OtherLengthsIgnored` | pyequity.py:90-107 | a token of any other length contributes nothing and is accepted wherever it stands |
| `Ranges.PairSpanHandsCount` | pyequity.py:95-111 | a span of pair specs yields 12 hands per spec |
| `Ranges.OpenPairRangeCount` | pyequity.py:94-111 | "XX+" yields `12 * (13 - index(X))` hands, e.g. 48 for "JJ+" |
| `Combinations.Prefixed` | pyequity.py:122 | defined as every tail tuple with `hs[0]` in front, then the same for the rest of `hs` |
| `Combinations.Product` | pyequity.py:122 | defined as `itertools.product(*pockets)` as a finite sequence: one empty tuple for no players, else `Prefixed` over the first player's list |
| `Combinations.Count` | pyequity.py:122 | defined as the sizes of the hand lists multiplied |
| `Combinations.Flatten` | pyequity.py:123-125 | defined as `lpck`: the players' cards concatenated in player order |
| `Combinations.Kept` | pyequity.py:126 | defined as `len(lpck) == len(set(lpck))` |
| `Combinations.Survivors` | pyequity.py:122-127 | defined as the combinations that are `Kept`, in the order they were produced |
| `Combinations.WellIndexedRanges` | pyequity.py:121 | defined as `Ranges.WellIndexed` for every token of every player's range |
| `Combinations.RangePockets` | pyequity.py:121 | the expanded pockets have one hand list per player |
| `Combinations.FlattenDeal` | pyequity.py:123-125 | the inner loop builds `lpck` as the cards of all players' hands, in player order |
| `Combinations.SurvivingDeals` | pyequity.py:122-127 | the combinations getting past the `continue` are the filtered product, in product order |
| `Combinations.ExpandPockets` | pyequity.py:121 | `[hands_from_range(p) for p in pockets]`, one hand list per player |
| `Combinations.ComputeDeals` | pyequity.py:121-127 | the combinations the loop would pass to the evaluator, if `pe` were bound, are the filtered product of the players' expanded ranges |
| `Combinations.PrefixedMembership` | pyequity.py:122 | a block of the product holds exactly the tuples that start with a hand from `hs` and continue with a tuple of the rest |
| `Combinations.ProductMembership` | pyequity.py:122 | a tuple is in the product exactly when it has one entry per player, each from that player's list |
| `Combinations.PrefixedLength` | pyequity.py:122 | a block has one tuple per choice of head and tail |
| `Combinations.ProductLength` | pyequity.py:122 | the product has as many tuples as the list sizes multiplied |
| `Combinations.PrefixedAt` | pyequity.py:122 | entry `i * len(rest) + k` of a block is hand `i` followed by tail tuple `k` |
| `Combinations.FirstPlayerSlowest` | pyequity.py:122 | entry `i * len(rest) + k` of the product is the first player's hand `i` followed by the other players' tuple `k`: the first player varies slowest |
| `Combinations.KeptIffDistinct` | pyequity.py:126 | the code's cardinality test passes exactly when no card occurs twice in `lpck` |
| `Combinations.SurvivorsMembership` | pyequity.py:122-127 | a combination survives exactly when it was produced and repeats no card |
| `Combinations.SurvivorsConcat` | pyequity.py:122-127 | the filter works piecewise and keeps order: survivors of `a + b` are those of `a`, then those of `b` |
| `Combinations.SurvivorsBound` | pyequity.py:126-127 | the filter only removes; with no colliding combination it keeps everything |
| `Combinations.FlattenContains` | pyequity.py:123-125 | every player's cards occur in `lpck` |
| `Combinations.FlattenWhere` | pyequity.py:123-125 | every card of `lpck` comes from some player's hand |
| `Combinations.FlattenDistinct` | pyequity.py:123-126 | `lpck` repeats no card exactly when each hand holds two different cards and no two players share a card |
| `Combinations.SurvivorsNeverShareCards` | pyequity.py:121-127 | in a surviving combination each player holds a hand of their own list, each hand has two different cards, and no card is dealt to two players |
| `Combinations.SurvivorsComplete` | pyequity.py:121-127 | every combination of listed hands without a shared or repeated card reaches the evaluator |

## Left out

- The evaluator calls `pe.poker_eval` (pyequity.py:129-132) are left out. As written they raise NameError, because only `pokereval` is imported (pyequity.py:5) and `pe` is never bound; with `pe` bound they would call into a library that is not part of this model. The model stops at the list of combinations that would be passed to them.
- The loops over the evaluator's result and over `pot_wins` (pyequity.py:134, 139) are left out with the evaluator.
- The `iterations`, `dead` and `board` parameters are left out, because they are only forwarded to the evaluator.
- The `pot_wins` accumulation and the equity normalisation (pyequity.py:119, 134-142) are left out. They are floating-point arithmetic on the evaluator's output, including a possible division by zero when nothing survives.
- `itertools.product` is lazy (pyequity.py:122). The model builds the product as a finite sequence, with the same order.
- `Ranges.HandsFromRange`: `ranks.index` raises ValueError on a character that is not a rank symbol (pyequity.py:95, 100, 103, 106), e.g. for `"KhQc"`. The model does not model the exception. Instead it requires of its callers that the indexed characters are rank symbols (`Ranges.WellIndexed`). The same precondition sits on `Ranges.AppendExpansion`, `Ranges.ExpandTokens`, `Combinations.ExpandPockets` and `Combinations.ComputeDeals`.
- `Hands.MakeHands`: the source raises IndexError for a spec shorter than two characters. The model requires at least two instead. Every spec that `hands_from_range` produces has two or three characters (`Ranges.ExpandAll`).
- `Hands.MakePairHands`: the source raises IndexError on an empty spec (pyequity.py:19). The model requires at least one character.
- `Hands.MakeSuitedHands`, `Hands.MakeOffsuitedHands`: the source raises IndexError at `cards[1]` for a spec shorter than two characters (pyequity.py:35, 56). The model requires at least two.
- Python strings and tuples are modelled as Dafny sequences, and a card as its two-character string. Only the symbols the source writes are modelled: no other string operations are involved.
