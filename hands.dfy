/** The hand instantiators of pyequity.py: a rank spec such as "88", "75s" or
    "76o" becomes the list of concrete two-card hands it stands for, one per
    entry of a fixed table of suit pairs. */
module Hands {
  import opened Cards
  import opened Seqs

  /** The pair table as the source lists it: 12 ordered suit pairs, so every
      unordered pair of suits appears twice (pyequity.py:11-14). */
  const PairSuits: seq<(Suit, Suit)> := [
    (Clubs, Spades), (Clubs, Hearts), (Clubs, Diamonds),
    (Spades, Clubs), (Spades, Hearts), (Spades, Diamonds),
    (Hearts, Clubs), (Hearts, Spades), (Hearts, Diamonds),
    (Diamonds, Clubs), (Diamonds, Spades), (Diamonds, Hearts)
  ]

  /** The suited table: one entry per suit, in the order c, h, d, s
      (pyequity.py:29). */
  const SuitedSuits: seq<(Suit, Suit)> := [
    (Clubs, Clubs), (Hearts, Hearts), (Diamonds, Diamonds), (Spades, Spades)
  ]

  /** The offsuit table as the source lists it: 24 entries, every ordered
      pair of distinct suits twice (pyequity.py:44-50). */
  const OffsuitSuits: seq<(Suit, Suit)> := [
    (Clubs, Spades), (Clubs, Hearts), (Clubs, Diamonds),
    (Spades, Clubs), (Spades, Hearts), (Spades, Diamonds),
    (Hearts, Clubs), (Hearts, Spades), (Hearts, Diamonds),
    (Diamonds, Clubs), (Diamonds, Spades), (Diamonds, Hearts),

    (Spades, Clubs), (Hearts, Clubs), (Diamonds, Clubs),
    (Clubs, Spades), (Hearts, Spades), (Diamonds, Spades),
    (Clubs, Hearts), (Spades, Hearts), (Diamonds, Hearts),
    (Clubs, Diamonds), (Spades, Diamonds), (Hearts, Diamonds)
  ]

  /** The hand one table entry yields: first card of rank `r1` in the
      entry's first suit, second card of rank `r2` in its second suit. */
  function HandOf(r1: char, r2: char, suits: (Suit, Suit)): Hand
  {
    [Format(r1, suits.0), Format(r2, suits.1)]
  }

  /** The hands a table yields, in table order: entry `i` yields hand `i`. */
  function Deal(r1: char, r2: char, table: seq<(Suit, Suit)>): seq<Hand>
  {
    seq(|table|, i requires 0 <= i < |table| => HandOf(r1, r2, table[i]))
  }

  /** `make_pair_hands`: both cards carry the rank `cards[0]`. */
  function PairHands(cards: string): seq<Hand>
    requires |cards| >= 1
  {
    Deal(cards[0], cards[0], PairSuits)
  }

  /** `make_suited_hands`: ranks `cards[0]` and `cards[1]`. */
  function SuitedHands(cards: string): seq<Hand>
    requires |cards| >= 2
  {
    Deal(cards[0], cards[1], SuitedSuits)
  }

  /** `make_offsuited_hands`: ranks `cards[0]` and `cards[1]`. */
  function OffsuitedHands(cards: string): seq<Hand>
    requires |cards| >= 2
  {
    Deal(cards[0], cards[1], OffsuitSuits)
  }

  /** `make_hands`: a spec of length 2 is a pair, one whose third character
      is 's' is suited, anything else is offsuit (pyequity.py:64-69). */
  function HandsOf(cards: string): seq<Hand>
    requires |cards| >= 2
  {
    if |cards| == 2 then PairHands(cards)
    else if cards[2] == 's' then SuitedHands(cards)
    else OffsuitedHands(cards)
  }

  // ---------------------------------------------------------------------
  // The loops of the source

  /** `make_pair_hands`: one hand per entry of the pair table, appended in
      table order (pyequity.py:7-23). */
  method MakePairHands(cards: string) returns (hands: seq<Hand>)
    requires |cards| >= 1
    ensures hands == PairHands(cards)
  {
    var possibleSuits := PairSuits;
    hands := [];
    for i := 0 to |possibleSuits|
      invariant |hands| == i
      invariant forall k :: 0 <= k < i ==> hands[k] == HandOf(cards[0], cards[0], possibleSuits[k])
    {
      var suits := possibleSuits[i];
      hands := hands + [[Format(cards[0], suits.0), Format(cards[0], suits.1)]];
    }
  }

  /** `make_suited_hands`: one hand per entry of the suited table
      (pyequity.py:25-38). */
  method MakeSuitedHands(cards: string) returns (hands: seq<Hand>)
    requires |cards| >= 2
    ensures hands == SuitedHands(cards)
  {
    var possibleSuits := SuitedSuits;
    hands := [];
    for i := 0 to |possibleSuits|
      invariant |hands| == i
      invariant forall k :: 0 <= k < i ==> hands[k] == HandOf(cards[0], cards[1], possibleSuits[k])
    {
      var suits := possibleSuits[i];
      hands := hands + [[Format(cards[0], suits.0), Format(cards[1], suits.1)]];
    }
  }

  /** `make_offsuited_hands`: one hand per entry of the offsuit table
      (pyequity.py:40-59). */
  method MakeOffsuitedHands(cards: string) returns (hands: seq<Hand>)
    requires |cards| >= 2
    ensures hands == OffsuitedHands(cards)
  {
    var possibleSuits := OffsuitSuits;
    hands := [];
    for i := 0 to |possibleSuits|
      invariant |hands| == i
      invariant forall k :: 0 <= k < i ==> hands[k] == HandOf(cards[0], cards[1], possibleSuits[k])
    {
      var suits := possibleSuits[i];
      hands := hands + [[Format(cards[0], suits.0), Format(cards[1], suits.1)]];
    }
  }

  /** `make_hands`: the dispatch on the spec's shape (pyequity.py:61-69). */
  method MakeHands(cards: string) returns (hands: seq<Hand>)
    requires |cards| >= 2
    ensures hands == HandsOf(cards)
  {
    if |cards| == 2 {
      hands := MakePairHands(cards);
    } else if cards[2] == 's' {
      hands := MakeSuitedHands(cards);
    } else {
      hands := MakeOffsuitedHands(cards);
    }
  }

  // ---------------------------------------------------------------------
  // What the tables contain

  /** The pair table lists no entry twice and every ordered pair of
      different suits. */
  lemma PairSuitsEntries()
    ensures Distinct(PairSuits)
    ensures forall p :: p in PairSuits ==> p.0 != p.1
    ensures forall a: Suit, b: Suit :: a != b ==> (a, b) in PairSuits
  {
  }

  /** Every entry of the pair table has two different suits, and each
      ordered pair of different suits is listed exactly once. */
  lemma PairSuitsTable()
    ensures |PairSuits| == 12
    ensures forall p :: p in PairSuits ==> p.0 != p.1
    ensures forall a: Suit, b: Suit :: a != b ==> multiset(PairSuits)[(a, b)] == 1
  {
    PairSuitsEntries();
    forall a: Suit, b: Suit | a != b ensures multiset(PairSuits)[(a, b)] == 1 {
      DistinctMultiplicity(PairSuits, (a, b));
    }
  }

  /** Every entry of the suited table repeats one suit, and each suit is
      listed exactly once. */
  lemma SuitedSuitsTable()
    ensures |SuitedSuits| == 4
    ensures forall p :: p in SuitedSuits ==> p.0 == p.1
    ensures forall s: Suit :: multiset(SuitedSuits)[(s, s)] == 1
  {
    assert Distinct(SuitedSuits);
    forall s: Suit ensures multiset(SuitedSuits)[(s, s)] == 1 {
      DistinctMultiplicity(SuitedSuits, (s, s));
      assert (s, s) in SuitedSuits by {
        match s
        case Clubs => assert SuitedSuits[0] == (s, s);
        case Hearts => assert SuitedSuits[1] == (s, s);
        case Diamonds => assert SuitedSuits[2] == (s, s);
        case Spades => assert SuitedSuits[3] == (s, s);
      }
    }
  }

  /** The second half of the offsuit table: the pair table with each
      entry's suits swapped, listed in the source's order. */
  const OffsuitSecondHalf: seq<(Suit, Suit)> := [
    (Spades, Clubs), (Hearts, Clubs), (Diamonds, Clubs),
    (Clubs, Spades), (Hearts, Spades), (Diamonds, Spades),
    (Clubs, Hearts), (Spades, Hearts), (Diamonds, Hearts),
    (Clubs, Diamonds), (Spades, Diamonds), (Hearts, Diamonds)
  ]

  /** The offsuit table is the pair table followed by its second half. */
  lemma OffsuitHalves()
    ensures OffsuitSuits == PairSuits + OffsuitSecondHalf
  {
  }

  /** The second half lists no entry twice and every ordered pair of
      different suits. */
  lemma OffsuitSecondHalfEntries()
    ensures Distinct(OffsuitSecondHalf)
    ensures forall p :: p in OffsuitSecondHalf ==> p.0 != p.1
    ensures forall a: Suit, b: Suit :: a != b ==> (a, b) in OffsuitSecondHalf
  {
  }

  /** Every entry of the offsuit table has two different suits, and each
      ordered pair of different suits is listed exactly twice. */
  lemma OffsuitSuitsTable()
    ensures |OffsuitSuits| == 24
    ensures forall p :: p in OffsuitSuits ==> p.0 != p.1
    ensures forall a: Suit, b: Suit :: a != b ==> multiset(OffsuitSuits)[(a, b)] == 2
  {
    var second := OffsuitSecondHalf;
    OffsuitHalves();
    assert multiset(OffsuitSuits) == multiset(PairSuits) + multiset(second);
    assert forall p :: p in OffsuitSuits ==> p.0 != p.1 by {
      PairSuitsEntries();
      OffsuitSecondHalfEntries();
    }
    forall a: Suit, b: Suit | a != b ensures multiset(OffsuitSuits)[(a, b)] == 2 {
      OffsuitSecondHalfEntries();
      PairSuitsTable();
      DistinctMultiplicity(second, (a, b));
    }
  }

  // ---------------------------------------------------------------------
  // What Deal makes of a table

  /** Dealing a longer table deals one more hand at the end. */
  lemma DealSnoc(r1: char, r2: char, table: seq<(Suit, Suit)>, suits: (Suit, Suit))
    ensures Deal(r1, r2, table + [suits]) == Deal(r1, r2, table) + [HandOf(r1, r2, suits)]
  {
  }

  /** Every dealt hand is two card strings, the first of rank `r1` and the
      second of rank `r2`; their suit letters differ when every table entry
      has two different suits and agree when every entry repeats a suit. */
  lemma DealCards(r1: char, r2: char, table: seq<(Suit, Suit)>)
    ensures forall h :: h in Deal(r1, r2, table) ==>
              |h| == 2 && |h[0]| == 2 && |h[1]| == 2 && h[0][0] == r1 && h[1][0] == r2
    ensures (forall p :: p in table ==> p.0 != p.1) ==>
              forall h :: h in Deal(r1, r2, table) ==> h[0][1] != h[1][1]
    ensures (forall p :: p in table ==> p.0 == p.1) ==>
              forall h :: h in Deal(r1, r2, table) ==> h[0][1] == h[1][1]
  {
    forall h | h in Deal(r1, r2, table)
      ensures |h| == 2 && |h[0]| == 2 && |h[1]| == 2 && h[0][0] == r1 && h[1][0] == r2
      ensures exists p :: p in table && h[0][1] == Letter(p.0) && h[1][1] == Letter(p.1)
    {
      var i :| 0 <= i < |table| && Deal(r1, r2, table)[i] == h;
      assert table[i] in table;
    }
  }

  /** A hand occurs in the dealt list as often as its suit pair occurs in
      the table, because Format is injective. */
  lemma {:induction false} DealCount(r1: char, r2: char, table: seq<(Suit, Suit)>, suits: (Suit, Suit))
    ensures multiset(Deal(r1, r2, table))[HandOf(r1, r2, suits)] == multiset(table)[suits]
  {
    if table != [] {
      var init, last := table[..|table| - 1], table[|table| - 1];
      DealCount(r1, r2, init, suits);
      assert table == init + [last];
      DealSnoc(r1, r2, init, last);
      FormatInjective(r1, suits.0, r1, last.0);
      FormatInjective(r2, suits.1, r2, last.1);
      assert HandOf(r1, r2, last) == HandOf(r1, r2, suits) <==> last == suits by {
        if HandOf(r1, r2, last) == HandOf(r1, r2, suits) {
          assert HandOf(r1, r2, last)[0] == HandOf(r1, r2, suits)[0];
          assert HandOf(r1, r2, last)[1] == HandOf(r1, r2, suits)[1];
        }
      }
    }
  }

  // ---------------------------------------------------------------------
  // The properties of the three instantiators

  /** make_pair_hands yields 12 hands; both cards have rank `cards[0]` and
      different suits, and each ordered pair of different suits occurs
      exactly once (pyequity.py:11-23). */
  lemma PairHandsProperties(cards: string)
    requires |cards| >= 1
    ensures |PairHands(cards)| == 12
    ensures forall h :: h in PairHands(cards) ==>
              |h| == 2 && |h[0]| == 2 && |h[1]| == 2 &&
              h[0][0] == cards[0] && h[1][0] == cards[0] && h[0][1] != h[1][1]
    ensures forall a: Suit, b: Suit :: a != b ==>
              multiset(PairHands(cards))[HandOf(cards[0], cards[0], (a, b))] == 1
  {
    PairSuitsTable();
    DealCards(cards[0], cards[0], PairSuits);
    forall a: Suit, b: Suit | a != b
      ensures multiset(PairHands(cards))[HandOf(cards[0], cards[0], (a, b))] == 1
    {
      DealCount(cards[0], cards[0], PairSuits, (a, b));
    }
  }

  /** make_suited_hands yields 4 hands; the first card has rank `cards[0]`,
      the second rank `cards[1]`, both share one suit, and each suit occurs
      exactly once (pyequity.py:29-38). */
  lemma SuitedHandsProperties(cards: string)
    requires |cards| >= 2
    ensures |SuitedHands(cards)| == 4
    ensures forall h :: h in SuitedHands(cards) ==>
              |h| == 2 && |h[0]| == 2 && |h[1]| == 2 &&
              h[0][0] == cards[0] && h[1][0] == cards[1] && h[0][1] == h[1][1]
    ensures forall s: Suit ::
              multiset(SuitedHands(cards))[HandOf(cards[0], cards[1], (s, s))] == 1
  {
    SuitedSuitsTable();
    DealCards(cards[0], cards[1], SuitedSuits);
    forall s: Suit
      ensures multiset(SuitedHands(cards))[HandOf(cards[0], cards[1], (s, s))] == 1
    {
      DealCount(cards[0], cards[1], SuitedSuits, (s, s));
    }
  }

  /** make_offsuited_hands yields 24 hands, none with equal suits, and each
      ordered pair of different suits occurs exactly twice
      (pyequity.py:44-59). */
  lemma OffsuitedHandsProperties(cards: string)
    requires |cards| >= 2
    ensures |OffsuitedHands(cards)| == 24
    ensures forall h :: h in OffsuitedHands(cards) ==>
              |h| == 2 && |h[0]| == 2 && |h[1]| == 2 &&
              h[0][0] == cards[0] && h[1][0] == cards[1] && h[0][1] != h[1][1]
    ensures forall a: Suit, b: Suit :: a != b ==>
              multiset(OffsuitedHands(cards))[HandOf(cards[0], cards[1], (a, b))] == 2
  {
    OffsuitSuitsTable();
    assert forall h :: h in OffsuitedHands(cards) ==>
        |h| == 2 && |h[0]| == 2 && |h[1]| == 2 &&
        h[0][0] == cards[0] && h[1][0] == cards[1] && h[0][1] != h[1][1] by {
      DealCards(cards[0], cards[1], OffsuitSuits);
    }
    forall a: Suit, b: Suit | a != b
      ensures multiset(OffsuitedHands(cards))[HandOf(cards[0], cards[1], (a, b))] == 2
    {
      DealCount(cards[0], cards[1], OffsuitSuits, (a, b));
    }
  }

  /** A suited hand holds two different cards exactly when the spec names
      two different ranks: "AAs" yields hands such as ["Ac", "Ac"], which no
      deal can hold. Pair and offsuit hands always hold two different cards,
      since their suit letters differ. */
  lemma SuitedCardsDistinct(cards: string)
    requires |cards| >= 2
    ensures forall h :: h in SuitedHands(cards) ==> |h| == 2 && (h[0] != h[1] <==> cards[0] != cards[1])
  {
    SuitedSuitsTable();
    DealCards(cards[0], cards[1], SuitedSuits);
    forall h | h in SuitedHands(cards)
      ensures h[0] != h[1] <==> cards[0] != cards[1]
    {
      assert h[0] == [h[0][0], h[0][1]] && h[1] == [h[1][0], h[1][1]];
    }
  }

  /** make_hands picks the instantiator by the spec's shape, so it yields 12
      hands for a pair, 4 for a suited spec and 24 otherwise. */
  lemma HandsOfCount(cards: string)
    requires |cards| >= 2
    ensures |cards| == 2 ==> HandsOf(cards) == PairHands(cards) && |HandsOf(cards)| == 12
    ensures |cards| > 2 && cards[2] == 's' ==> HandsOf(cards) == SuitedHands(cards) && |HandsOf(cards)| == 4
    ensures |cards| > 2 && cards[2] != 's' ==> HandsOf(cards) == OffsuitedHands(cards) && |HandsOf(cards)| == 24
  {
  }

  /** The source's comment gives '75s' -> [['7c', '5c'], ['7s', '5s'],
      ['7h', '5h'], ['7d', '5d']] (pyequity.py:28), but the table is walked
      in the order c, h, d, s (pyequity.py:29): the same four hands come out
      in another order. */
  lemma SuitedExample()
    ensures SuitedHands("75s") == [["7c", "5c"], ["7h", "5h"], ["7d", "5d"], ["7s", "5s"]]
    ensures multiset(SuitedHands("75s")) == multiset([["7c", "5c"], ["7s", "5s"], ["7h", "5h"], ["7d", "5d"]])
    ensures SuitedHands("75s") != [["7c", "5c"], ["7s", "5s"], ["7h", "5h"], ["7d", "5d"]]
  {
    var r := SuitedHands("75s");
    assert r[1] != ["7s", "5s"] by {
      assert r[1][0][1] == 'h';
    }
  }

  /** The source's comment: '55' -> [['5c', '5s'], ['5c', '5h'], ['5c', '5d'],
      ['5s', '5c'], ...] (pyequity.py:10). */
  lemma PairExample()
    ensures PairHands("55")[..4] == [["5c", "5s"], ["5c", "5h"], ["5c", "5d"], ["5s", "5c"]]
  {
  }
}
