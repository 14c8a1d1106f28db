/** Cards as the calculator writes them: a rank symbol followed by a suit
    letter, in a two-character string such as "Ah" or "7c". */
module Cards {

  /** The four suits, spelled 'c', 's', 'h' and 'd' in card strings. */
  datatype Suit = Clubs | Spades | Hearts | Diamonds

  type Card = string

  /** The hand list entry the calculator builds: a list of two card strings. */
  type Hand = seq<Card>

  /** The rank symbols, lowest first; a rank is an index 0..12 into this table
      (pyequity.py:88). */
  const Ranks: string := "23456789TJQKA"

  function Letter(s: Suit): char
  {
    match s
    case Clubs => 'c'
    case Spades => 's'
    case Hearts => 'h'
    case Diamonds => 'd'
  }

  /** `'%s%s' % (rank, suit)`: the two-character card string. */
  function Format(rank: char, suit: Suit): (card: Card)
  {
    [rank, Letter(suit)]
  }

  /** Format loses nothing: the rank and the suit can be read back from the
      card, so two cards are equal exactly when rank and suit are. */
  lemma FormatInjective(r1: char, s1: Suit, r2: char, s2: Suit)
    ensures Format(r1, s1) == Format(r2, s2) <==> r1 == r2 && s1 == s2
  {
    if Format(r1, s1) == Format(r2, s2) {
      assert Format(r1, s1)[0] == Format(r2, s2)[0];
      assert Letter(s1) == Format(r1, s1)[1] == Format(r2, s2)[1] == Letter(s2);
    }
  }

  datatype Option<T> = None | Some(value: T)

  /** The suit a card letter names, if any. */
  function SuitOf(c: char): (s: Option<Suit>)
    ensures s.Some? <==> c in "cshd"
    ensures s.Some? ==> Letter(s.value) == c
  {
    if c == 'c' then Some(Clubs)
    else if c == 's' then Some(Spades)
    else if c == 'h' then Some(Hearts)
    else if c == 'd' then Some(Diamonds)
    else None
  }

  /** Reading a card string back: its rank symbol and its suit, when it has
      two characters and the second is a suit letter. */
  function ParseCard(card: Card): (r: Option<(char, Suit)>)
    ensures r.Some? <==> |card| == 2 && card[1] in "cshd"
    ensures r.Some? ==> Format(r.value.0, r.value.1) == card
  {
    if |card| == 2 then
      match SuitOf(card[1])
      case Some(s) => Some((card[0], s))
      case None => None
    else None
  }

  /** The card string of `'%s%s' % (rank, suit)` reads back as that rank
      and suit: nothing is lost in formatting. */
  lemma FormatRoundTrip(rank: char, suit: Suit)
    ensures ParseCard(Format(rank, suit)) == Some((rank, suit))
  {
    assert Format(rank, suit)[1] == Letter(suit);
    match suit
    case Clubs =>
    case Spades =>
    case Hearts =>
    case Diamonds =>
  }

  /** Position of the first occurrence of `c` in `s` (Python's `tuple.index`). */
  function IndexIn(s: string, c: char): (i: nat)
    requires c in s
    ensures i < |s| && s[i] == c
    ensures forall j :: 0 <= j < i ==> s[j] != c
  {
    if s[0] == c then 0 else 1 + IndexIn(s[1..], c)
  }

  /** `ranks.index(c)`: the rank index of a rank symbol. */
  function IndexOf(c: char): (i: nat)
    requires c in Ranks
    ensures i < |Ranks| && Ranks[i] == c
  {
    IndexIn(Ranks, c)
  }

  /** In a string without repeated characters, the first occurrence of
      `s[i]` is at `i`. */
  lemma IndexInUnique(s: string, i: nat)
    requires i < |s|
    requires forall j, k :: 0 <= j < k < |s| ==> s[j] != s[k]
    ensures IndexIn(s, s[i]) == i
  {
    var j := IndexIn(s, s[i]);
    assert j <= i;
  }

  /** No rank symbol is listed twice, so the index of `Ranks[i]` is `i`. */
  lemma IndexOfRank(i: nat)
    requires i < |Ranks|
    ensures Ranks[i] in Ranks && IndexOf(Ranks[i]) == i
  {
    IndexInUnique(Ranks, i);
  }
}
