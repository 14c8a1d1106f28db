/** The range expander of pyequity.py (`hands_from_range`): range tokens such
    as "JJ+", "A5s+", "66-33" or "J5o-J3o" become rank specs, and the specs
    become concrete hands. The token's shape is read from its length and
    the ranks from index arithmetic over the rank table. */
module Ranges {
  import opened Cards
  import opened Hands
  import opened Seqs

  /** The characters at which `ranks.index` looks are rank symbols. The
      source raises ValueError otherwise (e.g. for the pinned "KhQc"); the
      model leaves that path out by demanding this of its callers. */
  predicate WellIndexed(token: string)
  {
    (|token| == 3 && token[2] == '+' ==> token[0] in Ranks) &&
    (|token| == 4 ==> token[1] in Ranks) &&
    (|token| == 5 ==> token[3] in Ranks && token[0] in Ranks) &&
    (|token| == 7 ==> token[5] in Ranks && token[1] in Ranks)
  }

  /** `ranks[rank] * 2`: the pair spec of rank index `i`. */
  function PairSpec(i: nat): string
    requires i < |Ranks|
  {
    [Ranks[i], Ranks[i]]
  }

  /** `'%s%s%s' % (pivot, ranks[rank], shape)`: a kicker spec. */
  function KickerSpec(pivot: char, i: nat, shape: char): string
    requires i < |Ranks|
  {
    [pivot, Ranks[i], shape]
  }

  /** The pair specs for `range(lo, hi)`: empty unless `lo < hi`. */
  function PairSpan(lo: nat, hi: nat): (r: seq<string>)
    requires hi <= |Ranks|
    ensures |r| == if lo < hi then hi - lo else 0
    ensures forall k :: 0 <= k < |r| ==> lo + k < |Ranks| && r[k] == PairSpec(lo + k)
  {
    if hi <= lo then [] else PairSpan(lo, hi - 1) + [PairSpec(hi - 1)]
  }

  /** The kicker specs for `range(lo, hi)`, pivot and shape held fixed. */
  function KickerSpan(pivot: char, shape: char, lo: nat, hi: nat): (r: seq<string>)
    requires hi <= |Ranks|
    ensures |r| == if lo < hi then hi - lo else 0
    ensures forall k :: 0 <= k < |r| ==> lo + k < |Ranks| && r[k] == KickerSpec(pivot, lo + k, shape)
  {
    if hi <= lo then [] else KickerSpan(pivot, shape, lo, hi - 1) + [KickerSpec(pivot, hi - 1, shape)]
  }

  /** The specs one token stands for (pyequity.py:90-107). Tokens of length
      2 and 3 (without '+') pass through unchanged; lengths other than 2, 3,
      4, 5 and 7 yield nothing. */
  function Expand(token: string): (r: seq<string>)
    requires WellIndexed(token)
    ensures forall s :: s in r ==> 2 <= |s| <= 3
  {
    if |token| == 2 then [token]
    else if |token| == 3 then
      if token[2] == '+' then PairSpan(IndexOf(token[0]), |Ranks|) else [token]
    else if |token| == 4 then KickerSpan(token[0], token[2], IndexOf(token[1]), |Ranks| - 1)
    else if |token| == 5 then PairSpan(IndexOf(token[3]), IndexOf(token[0]) + 1)
    else if |token| == 7 then KickerSpan(token[0], token[2], IndexOf(token[5]), IndexOf(token[1]) + 1)
    else []
  }

  /** The `cards` list after the first loop: the tokens' specs, in order. */
  function ExpandAll(tokens: seq<string>): (r: seq<string>)
    requires forall t :: t in tokens ==> WellIndexed(t)
    ensures forall s :: s in r ==> 2 <= |s| <= 3
  {
    if tokens == [] then []
    else ExpandAll(tokens[..|tokens| - 1]) + Expand(tokens[|tokens| - 1])
  }

  /** `make_hands` over each spec, concatenated in order. */
  function HandsOfAll(specs: seq<string>): seq<Hand>
    requires forall s :: s in specs ==> |s| >= 2
  {
    if specs == [] then []
    else HandsOfAll(specs[..|specs| - 1]) + HandsOf(specs[|specs| - 1])
  }

  /** What `hands_from_range` returns for a list of tokens. */
  function RangeHands(tokens: seq<string>): seq<Hand>
    requires forall t :: t in tokens ==> WellIndexed(t)
  {
    HandsOfAll(ExpandAll(tokens))
  }

  // ---------------------------------------------------------------------
  // The loops of the source

  /** The pair loops of the source: append `ranks[rank] * 2` for every
      rank in `range(lo, hi)` (pyequity.py:95-96, 103-104). */
  method AppendPairs(cards: seq<string>, lo: nat, hi: nat) returns (result: seq<string>)
    requires hi <= |Ranks|
    ensures result == cards + PairSpan(lo, hi)
  {
    result := cards;
    if lo < hi {
      for rank := lo to hi
        invariant result == cards + PairSpan(lo, rank)
      {
        ConcatAssoc(cards, PairSpan(lo, rank), [PairSpec(rank)]);
        result := result + [PairSpec(rank)];
      }
    } else {
      assert result == cards + [];
    }
  }

  /** The kicker loops of the source: append `'%s%s%s' % (pivot,
      ranks[rank], shape)` for every rank in `range(lo, hi)`
      (pyequity.py:100-101, 106-107). */
  method AppendKickers(cards: seq<string>, pivot: char, shape: char, lo: nat, hi: nat)
    returns (result: seq<string>)
    requires hi <= |Ranks|
    ensures result == cards + KickerSpan(pivot, shape, lo, hi)
  {
    result := cards;
    if lo < hi {
      for rank := lo to hi
        invariant result == cards + KickerSpan(pivot, shape, lo, rank)
      {
        ConcatAssoc(cards, KickerSpan(pivot, shape, lo, rank), [KickerSpec(pivot, rank, shape)]);
        result := result + [KickerSpec(pivot, rank, shape)];
      }
    } else {
      assert result == cards + [];
    }
  }

  /** One pass of the first loop of `hands_from_range`: the dispatch on the
      token's length (pyequity.py:90-107). */
  method AppendExpansion(cards: seq<string>, crange: string) returns (result: seq<string>)
    requires WellIndexed(crange)
    ensures result == cards + Expand(crange)
  {
    var crlen := |crange|;
    if crlen == 2 {
      result := cards + [crange];
    } else if crlen == 3 {
      if crange[2] == '+' {
        result := AppendPairs(cards, IndexOf(crange[0]), |Ranks|);
      } else {
        result := cards + [crange];
      }
    } else if crlen == 4 {
      result := AppendKickers(cards, crange[0], crange[2], IndexOf(crange[1]), |Ranks| - 1);
    } else if crlen == 5 {
      result := AppendPairs(cards, IndexOf(crange[3]), IndexOf(crange[0]) + 1);
    } else if crlen == 7 {
      result := AppendKickers(cards, crange[0], crange[2], IndexOf(crange[5]), IndexOf(crange[1]) + 1);
    } else {
      result := cards;
      assert result == cards + [];
    }
  }

  /** The first loop of `hands_from_range`: the specs of every token, in
      token order (pyequity.py:89-107). */
  method ExpandTokens(cardsRanges: seq<string>) returns (cards: seq<string>)
    requires forall t :: t in cardsRanges ==> WellIndexed(t)
    ensures cards == ExpandAll(cardsRanges)
  {
    cards := [];
    for n := 0 to |cardsRanges|
      invariant cards == ExpandAll(cardsRanges[..n])
    {
      ExpandAllPrefix(cardsRanges, n);
      cards := AppendExpansion(cards, cardsRanges[n]);
    }
    assert cardsRanges[..|cardsRanges|] == cardsRanges;
  }

  /** The second loop of `hands_from_range`: `hands += make_hands(fixme)`
      for every spec, in order (pyequity.py:109-111). */
  method HandsOfSpecs(cards: seq<string>) returns (hands: seq<Hand>)
    requires forall s :: s in cards ==> 2 <= |s|
    ensures hands == HandsOfAll(cards)
  {
    hands := [];
    for n := 0 to |cards|
      invariant hands == HandsOfAll(cards[..n])
    {
      HandsOfAllPrefix(cards, n);
      var more := MakeHands(cards[n]);
      hands := hands + more;
    }
    assert cards[..|cards|] == cards;
  }

  /** `hands_from_range`: the hands of every spec of every token, in token
      order (pyequity.py:76-112). */
  method HandsFromRange(cardsRanges: seq<string>) returns (hands: seq<Hand>)
    requires forall t :: t in cardsRanges ==> WellIndexed(t)
    ensures hands == RangeHands(cardsRanges)
  {
    var cards := ExpandTokens(cardsRanges);
    hands := HandsOfSpecs(cards);
  }

  // ---------------------------------------------------------------------
  // What each token shape expands to

  /** The k-th pair spec of a span is the pair of rank index `lo + k`. */
  lemma PairSpanRanks(lo: nat, hi: nat, r: seq<string>)
    requires hi <= |Ranks| && r == PairSpan(lo, hi)
    ensures forall k :: 0 <= k < |r| ==>
      |r[k]| == 2 && r[k][0] == r[k][1] && r[k][0] in Ranks && IndexOf(r[k][0]) == lo + k
  {
    forall k | 0 <= k < |r| ensures r[k][0] in Ranks && IndexOf(r[k][0]) == lo + k {
      IndexOfRank(lo + k);
    }
  }

  /** The k-th kicker spec of a span has kicker rank index `lo + k`. */
  lemma KickerSpanRanks(pivot: char, shape: char, lo: nat, hi: nat, r: seq<string>)
    requires hi <= |Ranks| && r == KickerSpan(pivot, shape, lo, hi)
    ensures forall k :: 0 <= k < |r| ==>
      |r[k]| == 3 && r[k][0] == pivot && r[k][2] == shape &&
      r[k][1] in Ranks && IndexOf(r[k][1]) == lo + k
  {
    forall k | 0 <= k < |r| ensures r[k][1] in Ranks && IndexOf(r[k][1]) == lo + k {
      IndexOfRank(lo + k);
    }
  }

  /** "XX+" yields the pairs from rank X up to AA, ascending, one per rank:
      the k-th spec is the pair of rank index `index(X) + k`
      (pyequity.py:94-96). */
  lemma OpenPairRange(token: string)
    requires |token| == 3 && token[2] == '+' && token[0] in Ranks
    ensures var r, lo := Expand(token), IndexOf(token[0]);
      |r| == |Ranks| - lo && r[0] == [token[0], token[0]] && r[|r| - 1] == "AA" &&
      forall k :: 0 <= k < |r| ==>
        |r[k]| == 2 && r[k][0] == r[k][1] && r[k][0] in Ranks && IndexOf(r[k][0]) == lo + k
  {
    var lo := IndexOf(token[0]);
    assert Expand(token) == PairSpan(lo, |Ranks|);
    PairSpanRanks(lo, |Ranks|, Expand(token));
  }

  /** "XX-YY" yields the pairs with rank indices `index(Y)` through `index(X)`
      inclusive, ascending; nothing when X ranks below Y
      (pyequity.py:102-104). */
  lemma BoundedPairRange(token: string)
    requires |token| == 5 && token[0] in Ranks && token[3] in Ranks
    ensures var r, lo, hi := Expand(token), IndexOf(token[3]), IndexOf(token[0]);
      (r == [] <==> hi < lo) &&
      |r| == (if lo <= hi then hi - lo + 1 else 0) &&
      forall k :: 0 <= k < |r| ==>
        |r[k]| == 2 && r[k][0] == r[k][1] && r[k][0] in Ranks && IndexOf(r[k][0]) == lo + k
  {
    var lo, hi := IndexOf(token[3]), IndexOf(token[0]);
    assert Expand(token) == PairSpan(lo, hi + 1);
    InclusivePairSpan(lo, hi, Expand(token));
  }

  /** The pairs of rank indices `lo` through `hi` inclusive. */
  lemma InclusivePairSpan(lo: nat, hi: nat, r: seq<string>)
    requires hi < |Ranks| && r == PairSpan(lo, hi + 1)
    ensures r == [] <==> hi < lo
    ensures |r| == if lo <= hi then hi - lo + 1 else 0
    ensures forall k :: 0 <= k < |r| ==>
      |r[k]| == 2 && r[k][0] == r[k][1] && r[k][0] in Ranks && IndexOf(r[k][0]) == lo + k
  {
    PairSpanRanks(lo, hi + 1, r);
  }

  /** "PKs+" (any 4-character token) keeps the pivot `token[0]` and the shape
      `token[2]` and lets the kicker run from `index(K)` up to index 11, the
      king; an ace kicker is never produced (pyequity.py:99-101). */
  lemma OpenKickerRange(token: string)
    requires |token| == 4 && token[1] in Ranks
    ensures var r, lo := Expand(token), IndexOf(token[1]);
      |r| == |Ranks| - 1 - lo &&
      forall k :: 0 <= k < |r| ==>
        |r[k]| == 3 && r[k][0] == token[0] && r[k][2] == token[2] && r[k][1] != 'A' &&
        r[k][1] in Ranks && IndexOf(r[k][1]) == lo + k
  {
    var lo := IndexOf(token[1]);
    assert Expand(token) == KickerSpan(token[0], token[2], lo, |Ranks| - 1);
    KickerSpanRanks(token[0], token[2], lo, |Ranks| - 1, Expand(token));
    IndexOfRank(|Ranks| - 1);
  }

  /** "PXs-PYs" keeps the pivot `token[0]` and the shape `token[2]` and lets
      the kicker run from `index(token[5])` through `index(token[1])`
      inclusive (pyequity.py:105-107). */
  lemma BoundedKickerRange(token: string)
    requires |token| == 7 && token[1] in Ranks && token[5] in Ranks
    ensures var r, lo, hi := Expand(token), IndexOf(token[5]), IndexOf(token[1]);
      (r == [] <==> hi < lo) &&
      |r| == (if lo <= hi then hi - lo + 1 else 0) &&
      forall k :: 0 <= k < |r| ==>
        |r[k]| == 3 && r[k][0] == token[0] && r[k][2] == token[2] &&
        r[k][1] in Ranks && IndexOf(r[k][1]) == lo + k
  {
    var lo, hi := IndexOf(token[5]), IndexOf(token[1]);
    assert Expand(token) == KickerSpan(token[0], token[2], lo, hi + 1);
    KickerSpanRanks(token[0], token[2], lo, hi + 1, Expand(token));
  }

  /** Tokens of length 2, and of length 3 not ending in '+', are specs
      already and pass through as they are (pyequity.py:91-92, 97-98). */
  lemma LiteralTokens(token: string)
    requires |token| == 2 || (|token| == 3 && token[2] != '+')
    ensures Expand(token) == [token]
  {
  }

  /** Three consecutive kicker specs, spelled out. */
  lemma KickerSpanThree(pivot: char, shape: char, lo: nat)
    requires lo + 3 <= |Ranks|
    ensures KickerSpan(pivot, shape, lo, lo + 3) ==
      [KickerSpec(pivot, lo, shape), KickerSpec(pivot, lo + 1, shape), KickerSpec(pivot, lo + 2, shape)]
  {
    var r := KickerSpan(pivot, shape, lo, lo + 3);
    assert |r| == 3 && r[0] == KickerSpec(pivot, lo, shape);
    assert r[1] == KickerSpec(pivot, lo + 1, shape) && r[2] == KickerSpec(pivot, lo + 2, shape);
  }

  /** Three consecutive pair specs, spelled out. */
  lemma PairSpanThree(lo: nat)
    requires lo + 3 <= |Ranks|
    ensures PairSpan(lo, lo + 3) == [PairSpec(lo), PairSpec(lo + 1), PairSpec(lo + 2)]
  {
    var r := PairSpan(lo, lo + 3);
    assert |r| == 3 && r[0] == PairSpec(lo) && r[1] == PairSpec(lo + 1) && r[2] == PairSpec(lo + 2);
  }

  /** Four consecutive pair specs, spelled out. */
  lemma PairSpanFour(lo: nat)
    requires lo + 4 <= |Ranks|
    ensures PairSpan(lo, lo + 4) == [PairSpec(lo), PairSpec(lo + 1), PairSpec(lo + 2), PairSpec(lo + 3)]
  {
    var r := PairSpan(lo, lo + 4);
    assert |r| == 4 && r[0] == PairSpec(lo) && r[1] == PairSpec(lo + 1);
    assert r[2] == PairSpec(lo + 2) && r[3] == PairSpec(lo + 3);
  }

  /** Docstring: 'QQ+' -> ['QQ', 'KK', 'AA'] (pyequity.py:78). */
  lemma OpenPairExample()
    ensures Expand("QQ+") == ["QQ", "KK", "AA"]
  {
    IndexOfRank(10);
    assert IndexOf("QQ+"[0]) == 10;
    assert Expand("QQ+") == PairSpan(10, 13);
    PairSpanThree(10);
    assert PairSpec(10) == "QQ" && PairSpec(11) == "KK" && PairSpec(12) == "AA";
  }

  /** Docstring: 'AJs+' -> ['AJs', 'AQs', 'AKs'] (pyequity.py:79). */
  lemma OpenSuitedKickerExample()
    ensures Expand("AJs+") == ["AJs", "AQs", "AKs"]
  {
    IndexOfRank(9);
    assert IndexOf("AJs+"[1]) == 9;
    assert Expand("AJs+") == KickerSpan('A', 's', 9, 12);
    KickerSpanThree('A', 's', 9);
    assert KickerSpec('A', 9, 's') == "AJs" && KickerSpec('A', 10, 's') == "AQs";
    assert KickerSpec('A', 11, 's') == "AKs";
  }

  /** Docstring: 'AJo+' -> ['AJo', 'AQo', 'AKo'] (pyequity.py:80). */
  lemma OpenOffsuitKickerExample()
    ensures Expand("AJo+") == ["AJo", "AQo", "AKo"]
  {
    IndexOfRank(9);
    assert IndexOf("AJo+"[1]) == 9;
    assert Expand("AJo+") == KickerSpan('A', 'o', 9, 12);
    KickerSpanThree('A', 'o', 9);
    assert KickerSpec('A', 9, 'o') == "AJo" && KickerSpec('A', 10, 'o') == "AQo";
    assert KickerSpec('A', 11, 'o') == "AKo";
  }

  /** Docstring: '66-33' -> ['33', '44', '55', '66'] (pyequity.py:81). */
  lemma BoundedPairExample()
    ensures Expand("66-33") == ["33", "44", "55", "66"]
  {
    assert IndexOf("66-33"[3]) == 1 by { IndexOfRank(1); }
    assert IndexOf("66-33"[0]) == 4 by { IndexOfRank(4); }
    assert Expand("66-33") == PairSpan(1, 5);
    assert PairSpan(1, 5) == ["33", "44", "55", "66"] by {
      PairSpanFour(1);
      assert PairSpec(1) == "33" && PairSpec(2) == "44" && PairSpec(3) == "55" && PairSpec(4) == "66";
    }
  }

  /** Docstring: 'J5o-J3o' -> ['J3o', 'J4o', 'J5o'] (pyequity.py:82). */
  lemma BoundedOffsuitKickerExample()
    ensures Expand("J5o-J3o") == ["J3o", "J4o", "J5o"]
  {
    IndexOfRank(1);
    IndexOfRank(3);
    assert IndexOf("J5o-J3o"[5]) == 1 && IndexOf("J5o-J3o"[1]) == 3;
    assert Expand("J5o-J3o") == KickerSpan('J', 'o', 1, 4);
    KickerSpanThree('J', 'o', 1);
    assert KickerSpec('J', 1, 'o') == "J3o" && KickerSpec('J', 2, 'o') == "J4o";
    assert KickerSpec('J', 3, 'o') == "J5o";
  }

  /** Docstring: 'J5s-J3s' -> ['J3s', 'J4s', 'J5s'] (pyequity.py:83). */
  lemma BoundedSuitedKickerExample()
    ensures Expand("J5s-J3s") == ["J3s", "J4s", "J5s"]
  {
    IndexOfRank(1);
    IndexOfRank(3);
    assert IndexOf("J5s-J3s"[5]) == 1 && IndexOf("J5s-J3s"[1]) == 3;
    assert Expand("J5s-J3s") == KickerSpan('J', 's', 1, 4);
    KickerSpanThree('J', 's', 1);
    assert KickerSpec('J', 1, 's') == "J3s" && KickerSpec('J', 2, 's') == "J4s";
    assert KickerSpec('J', 3, 's') == "J5s";
  }

  /** The open kicker range ignores the pivot: with the pivot a king, the
      kicker still climbs to the king, so "KQs+" yields "KKs", and every hand
      of "KKs" holds one card twice (pyequity.py:99-101). */
  lemma PivotKickerExample()
    ensures Expand("KQs+") == ["KQs", "KKs"]
    ensures forall h :: h in HandsOf("KKs") ==> |h| == 2 && h[0] == h[1]
  {
    IndexOfRank(10);
    assert IndexOf("KQs+"[1]) == 10;
    var r := Expand("KQs+");
    assert r == KickerSpan('K', 's', 10, 12);
    assert |r| == 2 && r[0] == KickerSpec('K', 10, 's') && r[1] == KickerSpec('K', 11, 's');
    assert KickerSpec('K', 10, 's') == "KQs" && KickerSpec('K', 11, 's') == "KKs";
    SuitedCardsDistinct("KKs");
  }

  // ---------------------------------------------------------------------
  // How the tokens combine

  /** Appending a token appends its expansion. */
  lemma ExpandAllSnoc(tokens: seq<string>, token: string)
    requires forall t :: t in tokens + [token] ==> WellIndexed(t)
    ensures ExpandAll(tokens + [token]) == ExpandAll(tokens) + Expand(token)
  {
    assert (tokens + [token])[..|tokens|] == tokens;
  }

  /** A single token expands to its own specs. */
  lemma ExpandAllSingle(token: string)
    requires WellIndexed(token)
    ensures ExpandAll([token]) == Expand(token)
  {
    assert [token][..0] == [];
  }

  /** The expansion of a prefix grows by one token at a time. */
  lemma ExpandAllPrefix(tokens: seq<string>, n: nat)
    requires n < |tokens|
    requires forall t :: t in tokens ==> WellIndexed(t)
    ensures forall t :: t in tokens[..n + 1] ==> WellIndexed(t)
    ensures ExpandAll(tokens[..n + 1]) == ExpandAll(tokens[..n]) + Expand(tokens[n])
  {
    assert forall t :: t in tokens[..n + 1] ==> t in tokens;
    assert tokens[..n + 1][..n] == tokens[..n];
  }

  /** Expanding a token list expands each part in turn. */
  lemma {:induction false} ExpandAllConcat(a: seq<string>, b: seq<string>)
    requires forall t :: t in a + b ==> WellIndexed(t)
    ensures ExpandAll(a + b) == ExpandAll(a) + ExpandAll(b)
  {
    if b == [] {
      ConcatEmpty(a);
    } else {
      var init, last := b[..|b| - 1], b[|b| - 1];
      InitLast(b);
      ConcatAssoc(a, init, [last]);
      ExpandAllConcat(a, init);
      ExpandAllSnoc(a + init, last);
      ExpandAllSnoc(init, last);
      ConcatAssoc(ExpandAll(a), ExpandAll(init), Expand(last));
    }
  }

  /** Appending a spec appends its hands. */
  lemma HandsOfAllSnoc(specs: seq<string>, spec: string)
    requires forall s :: s in specs + [spec] ==> |s| >= 2
    ensures HandsOfAll(specs + [spec]) == HandsOfAll(specs) + HandsOf(spec)
  {
    assert (specs + [spec])[..|specs|] == specs;
  }

  /** The hands of a prefix grow by one spec at a time. */
  lemma HandsOfAllPrefix(specs: seq<string>, n: nat)
    requires n < |specs|
    requires forall s :: s in specs ==> |s| >= 2
    ensures |specs[n]| >= 2
    ensures HandsOfAll(specs[..n + 1]) == HandsOfAll(specs[..n]) + HandsOf(specs[n])
  {
    assert specs[n] in specs;
    assert specs[..n + 1][..n] == specs[..n];
  }

  /** Instantiating a spec list instantiates each part in turn. */
  lemma {:induction false} HandsOfAllConcat(a: seq<string>, b: seq<string>)
    requires forall s :: s in a + b ==> |s| >= 2
    ensures HandsOfAll(a + b) == HandsOfAll(a) + HandsOfAll(b)
  {
    if b == [] {
      ConcatEmpty(a);
    } else {
      var init, last := b[..|b| - 1], b[|b| - 1];
      InitLast(b);
      ConcatAssoc(a, init, [last]);
      HandsOfAllConcat(a, init);
      HandsOfAllSnoc(a + init, last);
      HandsOfAllSnoc(init, last);
      ConcatAssoc(HandsOfAll(a), HandsOfAll(init), HandsOf(last));
    }
  }

  /** hands_from_range is the concatenation, in token order, of what each
      token yields: the hands of `a + b` are those of `a` followed by those
      of `b` (pyequity.py:89-112). */
  lemma {:induction false} RangeHandsConcat(a: seq<string>, b: seq<string>)
    requires forall t :: t in a + b ==> WellIndexed(t)
    ensures RangeHands(a + b) == RangeHands(a) + RangeHands(b)
  {
    ExpandAllConcat(a, b);
    HandsOfAllConcat(ExpandAll(a), ExpandAll(b));
  }

  /** A token whose length is not 2, 3, 4, 5 or 7 contributes nothing and
      raises nothing, wherever it stands (pyequity.py:90-107). */
  lemma OtherLengthsIgnored(a: seq<string>, token: string, b: seq<string>)
    requires |token| !in {2, 3, 4, 5, 7}
    requires forall t :: t in a + b ==> WellIndexed(t)
    ensures forall t :: t in a + [token] + b ==> WellIndexed(t)
    ensures RangeHands(a + [token] + b) == RangeHands(a + b)
  {
    assert forall t :: t in a + [token] + b ==> t in a + b || t == token;
    assert forall t :: t in a + [token] ==> t in a + [token] + b;
    RangeHandsConcat(a + [token], b);
    RangeHandsConcat(a, [token]);
    RangeHandsConcat(a, b);
    ExpandAllSingle(token);
    assert ExpandAll([token]) == [];
    assert RangeHands([token]) == [];
    assert RangeHands(a) + [] == RangeHands(a);
  }

  /** Each pair spec of a span yields 12 hands. */
  lemma {:induction false} PairSpanHandsCount(lo: nat, hi: nat)
    requires lo <= hi <= |Ranks|
    ensures forall s :: s in PairSpan(lo, hi) ==> |s| >= 2
    ensures |HandsOfAll(PairSpan(lo, hi))| == 12 * (hi - lo)
  {
    if lo < hi {
      var init, spec := PairSpan(lo, hi - 1), PairSpec(hi - 1);
      assert PairSpan(lo, hi) == init + [spec];
      PairSpanHandsCount(lo, hi - 1);
      HandsOfAllSnoc(init, spec);
      HandsOfCount(spec);
      assert |spec| == 2;
      assert |HandsOf(spec)| == 12;
      assert |HandsOfAll(init)| == 12 * (hi - 1 - lo);
      assert HandsOfAll(PairSpan(lo, hi)) == HandsOfAll(init) + HandsOf(spec);
    } else {
      assert PairSpan(lo, hi) == [];
    }
  }

  /** An "XX+" token yields 12 hands for each rank from X up to A: "JJ+"
      yields 48, "AA+" yields 12. */
  lemma OpenPairRangeCount(token: string)
    requires |token| == 3 && token[2] == '+' && token[0] in Ranks
    ensures |RangeHands([token])| == 12 * (|Ranks| - IndexOf(token[0]))
  {
    ExpandAllSingle(token);
    assert Expand(token) == PairSpan(IndexOf(token[0]), |Ranks|);
    PairSpanHandsCount(IndexOf(token[0]), |Ranks|);
  }

  /** Two tokens expand to the first one's specs, then the second one's. */
  lemma ExpandAllTwo(a: string, b: string)
    requires WellIndexed(a) && WellIndexed(b)
    ensures ExpandAll([a, b]) == Expand(a) + Expand(b)
  {
    assert [a, b] == [a] + [b];
    ExpandAllSnoc([a], b);
    ExpandAllSingle(a);
  }

  /** 'KK+' -> ['KK', 'AA'], the first token of the docstring's list. */
  lemma KingsUpExample()
    ensures Expand("KK+") == ["KK", "AA"]
  {
    IndexOfRank(11);
    assert IndexOf("KK+"[0]) == 11;
    assert Expand("KK+") == PairSpan(11, 13);
    var r := PairSpan(11, 13);
    assert |r| == 2 && r[0] == PairSpec(11) && r[1] == PairSpec(12);
  }

  /** '44-22' -> ['22', '33', '44'], the second token of the docstring's list. */
  lemma FoursDownExample()
    ensures Expand("44-22") == ["22", "33", "44"]
  {
    assert IndexOf("44-22"[3]) == 0 by { IndexOfRank(0); }
    assert IndexOf("44-22"[0]) == 2 by { IndexOfRank(2); }
    assert Expand("44-22") == PairSpan(0, 3);
    assert PairSpan(0, 3) == ["22", "33", "44"] by {
      PairSpanThree(0);
      assert PairSpec(0) == "22" && PairSpec(1) == "33" && PairSpec(2) == "44";
    }
  }

  /** Docstring: ['KK+', '44-22'] -> ['KK', 'AA', '22', '33', '44']
      (pyequity.py:74): the specs of 'KK+' followed by those of '44-22'. */
  lemma TokenListExample()
    ensures ExpandAll(["KK+", "44-22"]) == ["KK", "AA"] + ["22", "33", "44"]
  {
    ExpandAllTwo("KK+", "44-22");
    KingsUpExample();
    FoursDownExample();
  }
}
