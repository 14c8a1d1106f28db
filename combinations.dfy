/** The combination filter of `compute_equity` (pyequity.py:121-127): every
    player's range becomes a hand list, the lists are multiplied out with the
    first player varying slowest, and a deal in which some card turns up
    twice is skipped before it reaches the evaluator. */
module Combinations {
  import opened Cards
  import opened Seqs
  import opened Ranges

  /** One hand per player, in player order: an element of the product. */
  type Lineup = seq<Hand>

  // ---------------------------------------------------------------------
  // The product

  /** Each rest-tuple with `hs[0]` in front, then the same for `hs[1..]`:
      the first position varies slowest. */
  function Prefixed(hs: seq<Hand>, rest: seq<Lineup>): seq<Lineup>
  {
    if hs == [] then []
    else seq(|rest|, k requires 0 <= k < |rest| => [hs[0]] + rest[k]) + Prefixed(hs[1..], rest)
  }

  /** `itertools.product(*pockets)` as a finite sequence: the empty product
      has one empty tuple. */
  function Product(pockets: seq<seq<Hand>>): seq<Lineup>
  {
    if pockets == [] then [[]] else Prefixed(pockets[0], Product(pockets[1..]))
  }

  /** The number of tuples the product should have: the sizes multiplied. */
  function Count(pockets: seq<seq<Hand>>): nat
  {
    if pockets == [] then 1 else |pockets[0]| * Count(pockets[1..])
  }

  /** `lpck`: the cards of a deal, player by player (pyequity.py:123-125). */
  function Flatten(pck: Lineup): seq<Card>
  {
    if pck == [] then [] else Flatten(pck[..|pck| - 1]) + pck[|pck| - 1]
  }

  /** The test of pyequity.py:126 read positively: the deal is kept when
      `len(lpck) == len(set(lpck))`. */
  predicate Kept(pck: Lineup)
  {
    |Flatten(pck)| == |Elements(Flatten(pck))|
  }

  /** The deals that pass the filter, in the order they were produced. */
  function Survivors(deals: seq<Lineup>): seq<Lineup>
  {
    if deals == [] then []
    else
      var init, last := deals[..|deals| - 1], deals[|deals| - 1];
      Survivors(init) + (if Kept(last) then [last] else [])
  }

  /** Every token of every player's range indexes only rank symbols. */
  predicate WellIndexedRanges(ranges: seq<seq<string>>)
  {
    forall i :: 0 <= i < |ranges| ==> forall t :: t in ranges[i] ==> WellIndexed(t)
  }

  /** `[hands_from_range(p) for p in pockets]` (pyequity.py:121). */
  function RangePockets(ranges: seq<seq<string>>): (pockets: seq<seq<Hand>>)
    requires WellIndexedRanges(ranges)
    ensures |pockets| == |ranges|
  {
    seq(|ranges|, i requires 0 <= i < |ranges| => RangeHands(ranges[i]))
  }

  // ---------------------------------------------------------------------
  // The loops of the source

  /** The inner loop `for x in pck: lpck += x` (pyequity.py:123-125). */
  method FlattenDeal(pck: Lineup) returns (lpck: seq<Card>)
    ensures lpck == Flatten(pck)
  {
    lpck := [];
    for n := 0 to |pck|
      invariant lpck == Flatten(pck[..n])
    {
      assert pck[..n + 1][..n] == pck[..n];
      lpck := lpck + pck[n];
    }
    assert pck[..|pck|] == pck;
  }

  /** The outer loop over the product (pyequity.py:122-127). The deals that
      get past the `continue` are collected in `kept`, in the order in which
      the source would hand them to the evaluator. */
  method SurvivingDeals(pockets: seq<seq<Hand>>) returns (kept: seq<Lineup>)
    ensures kept == Survivors(Product(pockets))
  {
    var product := Product(pockets);
    kept := [];
    for n := 0 to |product|
      invariant kept == Survivors(product[..n])
    {
      SurvivorsPrefix(product, n);
      var pck := product[n];
      var lpck := FlattenDeal(pck);
      if |lpck| != |Elements(lpck)| {
        continue;
      }
      kept := kept + [pck];
    }
    assert product[..|product|] == product;
  }

  /** `pockets = [hands_from_range(p) for p in pockets]` (pyequity.py:121). */
  method ExpandPockets(ranges: seq<seq<string>>) returns (pockets: seq<seq<Hand>>)
    requires WellIndexedRanges(ranges)
    ensures pockets == RangePockets(ranges)
  {
    ghost var expected := RangePockets(ranges);
    pockets := [];
    for i := 0 to |ranges|
      invariant pockets == expected[..i]
    {
      var hands := HandsFromRange(ranges[i]);
      assert hands == expected[i];
      PrefixSnoc(expected, i);
      pockets := pockets + [hands];
    }
    assert expected[..|ranges|] == expected;
  }

  /** `compute_equity` up to the evaluator call: expand every player's range,
      then run the filter over the product (pyequity.py:121-127). The result
      is what the loop would pass to `pe.poker_eval` if the name `pe` were
      bound; as written only `pokereval` is imported (pyequity.py:5). */
  method ComputeDeals(ranges: seq<seq<string>>) returns (kept: seq<Lineup>)
    requires WellIndexedRanges(ranges)
    ensures kept == Survivors(Product(RangePockets(ranges)))
  {
    var pockets := ExpandPockets(ranges);
    kept := SurvivingDeals(pockets);
  }

  // ---------------------------------------------------------------------
  // What the product is

  /** The tuples of `Prefixed` are those starting with an element of `hs`
      and continuing with a member of `rest`. */
  lemma {:induction false} PrefixedMembership(hs: seq<Hand>, rest: seq<Lineup>, u: Lineup)
    ensures u in Prefixed(hs, rest) <==> |u| >= 1 && u[0] in hs && u[1..] in rest
  {
    if hs != [] {
      var front := seq(|rest|, k requires 0 <= k < |rest| => [hs[0]] + rest[k]);
      PrefixedMembership(hs[1..], rest, u);
      assert u in front <==> |u| >= 1 && u[0] == hs[0] && u[1..] in rest by {
        if u in front {
          var k :| 0 <= k < |rest| && front[k] == u;
          assert u[1..] == rest[k];
        }
        if |u| >= 1 && u[0] == hs[0] && u[1..] in rest {
          var k :| 0 <= k < |rest| && rest[k] == u[1..];
          assert front[k] == u;
        }
      }
      assert |u| >= 1 ==> (u[0] in hs <==> u[0] == hs[0] || u[0] in hs[1..]) by {
        if |u| >= 1 && u[0] in hs && u[0] != hs[0] {
          var i :| 0 <= i < |hs| && hs[i] == u[0];
          assert hs[1..][i - 1] == u[0];
        }
      }
    }
  }

  /** A tuple is in the product exactly when it has one entry per player
      and each entry is one of that player's hands. */
  lemma {:induction false} ProductMembership(pockets: seq<seq<Hand>>, t: Lineup)
    ensures t in Product(pockets) <==>
      |t| == |pockets| && forall i :: 0 <= i < |t| ==> t[i] in pockets[i]
  {
    if pockets == [] {
      assert t in [[]] <==> t == [];
    } else {
      PrefixedMembership(pockets[0], Product(pockets[1..]), t);
      if |t| >= 1 {
        ProductMembership(pockets[1..], t[1..]);
        if |t| == |pockets| && t[0] in pockets[0] && t[1..] in Product(pockets[1..]) {
          forall i | 0 <= i < |t| ensures t[i] in pockets[i] {
            if i > 0 {
              assert t[1..][i - 1] == t[i];
            }
          }
        }
        if |t| == |pockets| && forall i :: 0 <= i < |t| ==> t[i] in pockets[i] {
          forall i | 0 <= i < |t[1..]| ensures t[1..][i] in pockets[1..][i] {
            assert t[1..][i] == t[i + 1];
          }
        }
      }
    }
  }

  /** `Prefixed` has one tuple for each choice from `hs` and from `rest`. */
  lemma {:induction false} PrefixedLength(hs: seq<Hand>, rest: seq<Lineup>)
    ensures |Prefixed(hs, rest)| == |hs| * |rest|
  {
    if hs != [] {
      PrefixedLength(hs[1..], rest);
      assert |hs| * |rest| == |rest| + (|hs| - 1) * |rest|;
    }
  }

  /** The product has as many tuples as the sizes of the hand lists
      multiplied together; one empty hand list empties it. */
  lemma {:induction false} ProductLength(pockets: seq<seq<Hand>>)
    ensures |Product(pockets)| == Count(pockets)
  {
    if pockets != [] {
      ProductLength(pockets[1..]);
      PrefixedLength(pockets[0], Product(pockets[1..]));
    }
  }

  /** Block `i` of `Prefixed` starts where the blocks before it end. */
  lemma BlockStart(i: nat, width: nat)
    requires i > 0
    ensures i * width == width + (i - 1) * width
  {
  }

  /** Position `i * |rest| + k` of `Prefixed` holds `hs[i]` followed by
      `rest[k]`. */
  lemma {:induction false} PrefixedAt(hs: seq<Hand>, rest: seq<Lineup>, i: nat, k: nat)
    requires i < |hs| && k < |rest|
    ensures i * |rest| + k < |hs| * |rest|
    ensures i * |rest| + k < |Prefixed(hs, rest)|
    ensures Prefixed(hs, rest)[i * |rest| + k] == [hs[i]] + rest[k]
  {
    var width := |rest|;
    var front := seq(width, k requires 0 <= k < width => [hs[0]] + rest[k]);
    var tail := Prefixed(hs[1..], rest);
    assert Prefixed(hs, rest) == front + tail;
    PrefixedLength(hs[1..], rest);
    BlockStart(|hs|, width);
    if i == 0 {
      assert (front + tail)[k] == front[k];
    } else {
      PrefixedAt(hs[1..], rest, i - 1, k);
      BlockStart(i, width);
      var m := (i - 1) * width + k;
      assert i * width + k == width + m;
      assert (front + tail)[width + m] == tail[m];
      assert hs[1..][i - 1] == hs[i];
    }
  }

  /** The first player varies slowest: the tuples that pair the first
      player's `i`-th hand with each tuple of the other players come as one
      block, block `i`, in the order of the other players' product. */
  lemma FirstPlayerSlowest(pockets: seq<seq<Hand>>, i: nat, k: nat)
    requires pockets != [] && i < |pockets[0]| && k < |Product(pockets[1..])|
    ensures var rest := Product(pockets[1..]);
      i * |rest| + k < |Product(pockets)| &&
      Product(pockets)[i * |rest| + k] == [pockets[0][i]] + rest[k]
  {
    PrefixedAt(pockets[0], Product(pockets[1..]), i, k);
  }

  // ---------------------------------------------------------------------
  // What the filter keeps

  /** The surviving deals of a prefix grow by one deal at a time. */
  lemma SurvivorsPrefix(deals: seq<Lineup>, n: nat)
    requires n < |deals|
    ensures Survivors(deals[..n + 1]) ==
      Survivors(deals[..n]) + (if Kept(deals[n]) then [deals[n]] else [])
  {
    assert deals[..n + 1][..n] == deals[..n];
  }

  /** The code's cardinality test is the same as "no card occurs twice". */
  lemma KeptIffDistinct(pck: Lineup)
    ensures Kept(pck) <==> Distinct(Flatten(pck))
  {
    DistinctIffCardinality(Flatten(pck));
  }

  /** A deal survives exactly when it was produced and no card occurs twice
      in it: every deal with a repeated card is skipped, and no other deal
      is. */
  lemma {:induction false} SurvivorsMembership(deals: seq<Lineup>, t: Lineup)
    ensures t in Survivors(deals) <==> t in deals && Distinct(Flatten(t))
  {
    KeptIffDistinct(t);
    if deals != [] {
      var init, last := deals[..|deals| - 1], deals[|deals| - 1];
      SurvivorsMembership(init, t);
      InitLast(deals);
      assert t in deals <==> t in init || t == last;
    }
  }

  /** Filtering a concatenation filters each part and keeps them in order:
      the survivors keep product order. */
  lemma {:induction false} SurvivorsConcat(a: seq<Lineup>, b: seq<Lineup>)
    ensures Survivors(a + b) == Survivors(a) + Survivors(b)
  {
    if b == [] {
      ConcatEmpty(a);
    } else {
      var init, last := b[..|b| - 1], b[|b| - 1];
      InitLast(b);
      ConcatAssoc(a, init, [last]);
      SnocInit(a + init, last);
      SurvivorsConcat(a, init);
      ConcatAssoc(Survivors(a), Survivors(init), if Kept(last) then [last] else []);
    }
  }

  /** The filter only removes: the survivors are never more than the deals,
      and all of them are kept when no deal repeats a card. */
  lemma {:induction false} SurvivorsBound(deals: seq<Lineup>)
    ensures |Survivors(deals)| <= |deals|
    ensures (forall t :: t in deals ==> Distinct(Flatten(t))) ==> Survivors(deals) == deals
  {
    if deals != [] {
      var init, last := deals[..|deals| - 1], deals[|deals| - 1];
      InitLast(deals);
      SurvivorsBound(init);
      KeptIffDistinct(last);
    }
  }

  // ---------------------------------------------------------------------
  // No card twice

  /** The hand of player `i` sits inside the flattened deal. */
  lemma {:induction false} FlattenContains(pck: Lineup, i: nat)
    requires i < |pck|
    ensures Elements(pck[i]) <= Elements(Flatten(pck))
  {
    var init, last := pck[..|pck| - 1], pck[|pck| - 1];
    if i < |init| {
      FlattenContains(init, i);
      assert pck[i] == init[i];
    }
  }

  /** The flattened deal holds no card twice exactly when every hand holds
      two different cards and no two players share a card. */
  lemma {:induction false} FlattenDistinct(pck: Lineup)
    ensures Distinct(Flatten(pck)) <==>
      (forall i :: 0 <= i < |pck| ==> Distinct(pck[i])) &&
      (forall i, j :: 0 <= i < j < |pck| ==> Elements(pck[i]) !! Elements(pck[j]))
  {
    if pck != [] {
      var init, last := pck[..|pck| - 1], pck[|pck| - 1];
      FlattenDistinct(init);
      DistinctConcat(Flatten(init), last);
      assert forall i :: 0 <= i < |init| ==> pck[i] == init[i];
      if Distinct(Flatten(pck)) {
        forall i, j | 0 <= i < j < |pck| ensures Elements(pck[i]) !! Elements(pck[j]) {
          if j == |pck| - 1 {
            FlattenContains(init, i);
          }
        }
      }
      if (forall i :: 0 <= i < |pck| ==> Distinct(pck[i])) &&
         (forall i, j :: 0 <= i < j < |pck| ==> Elements(pck[i]) !! Elements(pck[j]))
      {
        forall c | c in Elements(Flatten(init)) ensures c !in Elements(last) {
          var i := FlattenWhere(init, c);
          assert Elements(pck[i]) !! Elements(pck[|pck| - 1]);
        }
      }
    }
  }

  /** Every card of a flattened deal comes from some player's hand. */
  lemma {:induction false} FlattenWhere(pck: Lineup, c: Card) returns (i: nat)
    requires c in Elements(Flatten(pck))
    ensures i < |pck| && c in Elements(pck[i])
  {
    var init, last := pck[..|pck| - 1], pck[|pck| - 1];
    if c in Elements(last) {
      i := |pck| - 1;
    } else {
      assert Elements(Flatten(pck)) == Elements(Flatten(init)) + Elements(last);
      i := FlattenWhere(init, c);
      assert pck[i] == init[i];
    }
  }

  /** The safety property of the filter: a surviving deal gives every player
      one of the hands of that player's range, each hand holds two different
      cards, and no card is dealt to two players. */
  lemma SurvivorsNeverShareCards(pockets: seq<seq<Hand>>, t: Lineup)
    requires t in Survivors(Product(pockets))
    ensures |t| == |pockets| && forall i :: 0 <= i < |t| ==> t[i] in pockets[i]
    ensures forall i :: 0 <= i < |t| ==> Distinct(t[i])
    ensures forall i, j :: 0 <= i < j < |t| ==> Elements(t[i]) !! Elements(t[j])
  {
    SurvivorsMembership(Product(pockets), t);
    ProductMembership(pockets, t);
    FlattenDistinct(t);
  }

  /** Conversely, every combination of range hands with no card twice
      reaches the evaluator. */
  lemma SurvivorsComplete(pockets: seq<seq<Hand>>, t: Lineup)
    requires |t| == |pockets| && forall i :: 0 <= i < |t| ==> t[i] in pockets[i]
    requires forall i :: 0 <= i < |t| ==> Distinct(t[i])
    requires forall i, j :: 0 <= i < j < |t| ==> Elements(t[i]) !! Elements(t[j])
    ensures t in Survivors(Product(pockets))
  {
    SurvivorsMembership(Product(pockets), t);
    ProductMembership(pockets, t);
    FlattenDistinct(t);
  }
}
