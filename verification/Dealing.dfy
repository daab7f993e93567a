/** Cards on the table: no card is ever in two places, and a contested showdown has a full board. */
module Dealing {
  import opened Sequences
  import opened Cards
  import opened BestHand
  import opened SolverTheorem
  import opened Tables
  import opened Showdowns
  import opened Betting

  /** The cards in players' hands; card backs are no cards. */
  function Holes(seats: seq<Seat>): multiset<string> {
    if seats == [] then multiset{}
    else (if seats[0].cards == CARD_BACKS then multiset{} else multiset(seats[0].cards)) + Holes(seats[1..])
  }

  function AllCards(t: Table): multiset<string> {
    multiset(t.deck) + multiset(t.community) + Holes(t.seats)
  }

  /** Cards of the deck, none twice. */
  ghost predicate SoundCards(m: multiset<string>) {
    forall c :: m[c] <= 1 && (c in m ==> DeckCode(c))
  }

  /** How many board cards a street shows. */
  function BoardSize(phaseIndex: int): int {
    if phaseIndex <= 0 then 0 else if phaseIndex == 1 then 3 else if phaseIndex == 2 then 4 else 5
  }

  ghost predicate CardsDealt(t: Table) {
    && SoundCards(AllCards(t))
    && |t.community| == BoardSize(t.phaseIndex) && |t.deck| + |t.community| >= 5
    && forall i :: 0 <= i < |t.seats| && !t.seats[i].folded ==>
        |t.seats[i].cards| == 2 && t.seats[i].cards != CARD_BACKS
  }

  lemma {:induction false} SameHoles(a: seq<Seat>, b: seq<Seat>)
    requires |a| == |b| && forall i :: 0 <= i < |a| ==> a[i].cards == b[i].cards
    ensures Holes(a) == Holes(b)
  {
    if a != [] {
      SameHoles(a[1..], b[1..]);
    }
  }

  /** Betting, folding and moving between streets without dealing keeps the cards as they are. */
  lemma {:induction false} SameCardsDealt(t: Table, u: Table)
    requires CardsDealt(t) && u.deck == t.deck && u.community == t.community
        && BoardSize(u.phaseIndex) == BoardSize(t.phaseIndex)
    requires |u.seats| == |t.seats|
    requires forall i :: 0 <= i < |t.seats| ==>
               u.seats[i].cards == t.seats[i].cards && (t.seats[i].folded ==> u.seats[i].folded)
    ensures CardsDealt(u)
  {
    SameHoles(t.seats, u.seats);
  }

  /** The next street moves its cards from the deck to the board. */
  lemma {:induction false} StreetDealt(t: Table)
    requires CardsDealt(t) && 0 <= t.phaseIndex < SHOWDOWN - 1
    ensures CardsDealt(DealCommunity(t.(phaseIndex := t.phaseIndex + 1), BoardCards(t.phaseIndex + 1)))
  {
    var count := BoardCards(t.phaseIndex + 1);
    var u := DealCommunity(t.(phaseIndex := t.phaseIndex + 1), count);
    assert u.community == t.community + t.deck[..count] && u.deck == t.deck[count..];
    Moved(t.deck, t.community, count);
    assert AllCards(u) == AllCards(t);
  }

  lemma {:induction false} Moved(deck: seq<string>, board: seq<string>, count: nat)
    requires count <= |deck|
    ensures multiset(deck[count..]) + multiset(board + deck[..count]) == multiset(deck) + multiset(board)
  {
    assert deck == deck[..count] + deck[count..];
  }

  // ---- Dealing the hole cards ----

  lemma {:induction false} HolesUpdate(seats: seq<Seat>, i: nat, cards: seq<string>)
    requires i < |seats| && seats[i].cards == CARD_BACKS && cards != CARD_BACKS
    ensures Holes(seats[i := seats[i].(cards := cards)]) == Holes(seats) + multiset(cards)
  {
    var r := seats[i := seats[i].(cards := cards)];
    if i == 0 {
      assert r[1..] == seats[1..];
    } else {
      assert r[1..] == seats[1..][i - 1 := seats[1..][i - 1].(cards := cards)];
      HolesUpdate(seats[1..], i - 1, cards);
    }
  }

  /** Two cards go from the deck to a seat without any. */
  lemma {:induction false} TwoCardsDealt(t: Table, i: nat)
    requires i < |t.seats| && t.seats[i].cards == CARD_BACKS && |t.deck| >= 2 && SoundCards(AllCards(t))
    ensures var cards := [t.deck[0], t.deck[1]];
      && cards != CARD_BACKS
      && AllCards(t.(seats := t.seats[i := t.seats[i].(cards := cards)], deck := t.deck[2..])) == AllCards(t)
  {
    var cards := [t.deck[0], t.deck[1]];
    assert t.deck == cards + t.deck[2..];
    assert multiset(t.deck) == multiset(cards) + multiset(t.deck[2..]);
    assert cards[0] in AllCards(t) && DeckCode(cards[0]);
    assert CARD_BACKS[0] == "1B" && !DeckCode("1B");
    HolesUpdate(t.seats, i, cards);
  }

  /** With two cards a seat in the deck, every seat in the hand gets two, and no card is lost or doubled. */
  lemma {:induction false} HoleCardsDealt(t: Table, i: nat)
    requires i <= |t.seats| && SoundCards(AllCards(t)) && |t.deck| >= 2 * (|t.seats| - i) + 5
    requires forall j :: i <= j < |t.seats| ==> t.seats[j].cards == CARD_BACKS
    requires forall j :: 0 <= j < i && !t.seats[j].folded ==> |t.seats[j].cards| == 2 && t.seats[j].cards != CARD_BACKS
    ensures var r := DealHoleCards(t, i);
      && SoundCards(AllCards(r)) && |r.deck| >= 5 && r.community == t.community && |r.seats| == |t.seats|
      && r.phaseIndex == t.phaseIndex
      && forall j :: 0 <= j < |r.seats| && !r.seats[j].folded ==>
          |r.seats[j].cards| == 2 && r.seats[j].cards != CARD_BACKS
    decreases |t.seats| - i
  {
    if i < |t.seats| {
      if t.seats[i].folded {
        HoleCardsDealt(t, i + 1);
      } else {
        TwoCardsDealt(t, i);
        HoleCardsDealt(t.(seats := t.seats[i := t.seats[i].(cards := [t.deck[0], t.deck[1]])], deck := t.deck[2..]),
                       i + 1);
      }
    }
  }

  lemma {:induction false} DeckUsed(t: Table, i: nat)
    requires i <= |t.seats| && |t.deck| >= 2 * CountLive(t.seats[i..])
    ensures DealHoleCards(t, i).deck == t.deck[2 * CountLive(t.seats[i..])..]
    decreases |t.seats| - i
  {
    if i < |t.seats| {
      assert t.seats[i..][1..] == t.seats[i + 1..];
      if t.seats[i].folded {
        DeckUsed(t, i + 1);
      } else {
        var seats := t.seats[i := t.seats[i].(cards := [t.deck[0], t.deck[1]])];
        assert seats[i + 1..] == t.seats[i + 1..];
        DeckUsed(t.(seats := seats, deck := t.deck[2..]), i + 1);
      }
    }
  }

  /** A fresh deck leaves a whole board exactly up to twenty-three hands. */
  lemma {:induction false} BoardLeft(t: Table)
    requires |t.deck| == DECK_SIZE && CountLive(t.seats) <= 26
    ensures |DealHoleCards(t, 0).deck| >= 5 <==> CountLive(t.seats) <= 23
  {
    assert t.seats[0..] == t.seats;
    DeckUsed(t, 0);
  }

  lemma {:induction false} NoHoles(seats: seq<Seat>)
    requires forall i :: 0 <= i < |seats| ==> seats[i].cards == CARD_BACKS
    ensures Holes(seats) == multiset{}
  {
    if seats != [] {
      NoHoles(seats[1..]);
    }
  }

  // ---- The hands compared at a showdown ----

  lemma {:induction false} HoleWithin(seats: seq<Seat>, p: nat)
    requires p < |seats| && seats[p].cards != CARD_BACKS
    ensures multiset(seats[p].cards) <= Holes(seats)
  {
    if p > 0 {
      HoleWithin(seats[1..], p - 1);
    }
  }

  // ---- The deck ----

  const SUITS := "CDHS"
  const DECK_SIZE := 52

  /** Suit by suit, each from the deuce to the ace. */
  function FullDeck(): (d: seq<string>)
    ensures |d| == DECK_SIZE && forall k :: 0 <= k < DECK_SIZE ==> d[k] == [CLIENT_RANK_ORDER[k % 13], SUITS[k / 13]]
  {
    seq(DECK_SIZE, k requires 0 <= k < DECK_SIZE => [CLIENT_RANK_ORDER[k % 13], SUITS[k / 13]])
  }

  method BuildFullDeck() returns (deck: seq<string>)
    ensures deck == FullDeck()
  {
    deck := [];
    for s := 0 to 4
      invariant |deck| == 13 * s && deck == FullDeck()[..13 * s]
    {
      for r := 0 to 13
        invariant |deck| == 13 * s + r && deck == FullDeck()[..13 * s + r]
      {
        deck := deck + [[CLIENT_RANK_ORDER[r], SUITS[s]]];
      }
    }
  }

  function Exchanged<T>(deck: seq<T>, j: nat, i: nat): (r: seq<T>)
    requires j < |deck| && i < |deck|
    ensures |r| == |deck|
  {
    deck[i := deck[j]][j := deck[i]]
  }

  /** The deck once the positions below `i` have been exchanged, from the last down, as the choices say. */
  function Rearranged<T>(deck: seq<T>, i: nat, random: nat -> nat): (r: seq<T>)
    requires i <= |deck|
    ensures |r| == |deck|
    decreases i
  {
    if i <= 1 then deck else Rearranged(Exchanged(deck, random(i - 1) % i, i - 1), i - 1, random)
  }

  /** Exchanges each position, from the last down, with a random earlier one or itself. */
  method ShuffleDeck(deck: seq<string>, random: nat -> nat) returns (out: seq<string>)
    ensures multiset(out) == multiset(deck) && out == Rearranged(deck, |deck|, random)
  {
    out := deck;
    var i := |out|;
    while i > 1
      invariant |out| == |deck| && 0 <= i <= |deck|
      invariant multiset(out) == multiset(deck)
      invariant Rearranged(out, i, random) == Rearranged(deck, |deck|, random)
    {
      i := i - 1;
      var j := random(i) % (i + 1);
      out := out[i := out[j]][j := out[i]];
    }
  }

  lemma {:induction false} DeckDistinct()
    ensures Distinct(FullDeck())
  {
    forall i, j | 0 <= i < j < DECK_SIZE ensures FullDeck()[i] != FullDeck()[j] {
      if i / 13 == j / 13 {
        assert i % 13 != j % 13;
        RankCharsApart(i % 13, j % 13);
      } else {
        SuitCharsApart(i / 13, j / 13);
      }
    }
  }

  lemma {:induction false} RankCharsApart(i: nat, j: nat)
    requires i < 13 && j < 13 && i != j
    ensures CLIENT_RANK_ORDER[i] != CLIENT_RANK_ORDER[j]
  {
  }

  lemma {:induction false} SuitCharsApart(i: nat, j: nat)
    requires i < 4 && j < 4 && i != j
    ensures SUITS[i] != SUITS[j]
  {
  }

  /** The full deck holds every card once, and a shuffle of it too. */
  lemma {:induction false} FullDeckSound(shuffled: seq<string>)
    requires multiset(shuffled) == multiset(FullDeck())
    ensures SoundCards(multiset(shuffled)) && |shuffled| == DECK_SIZE
    ensures forall c :: c in shuffled <==> DeckCode(c)
  {
    assert |multiset(shuffled)| == |shuffled| && |multiset(FullDeck())| == DECK_SIZE;
    DeckDistinct();
    DistinctByCount(FullDeck());
    forall c ensures c in shuffled <==> DeckCode(c) {
      assert c in shuffled <==> c in multiset(shuffled);
      assert c in FullDeck() <==> c in multiset(FullDeck());
      if DeckCode(c) {
        DeckPosition(c);
      }
    }
  }

  lemma {:induction false} DeckPosition(c: string)
    requires DeckCode(c)
    ensures c in FullDeck()
  {
    var r :| 0 <= r < 13 && CLIENT_RANK_ORDER[r] == c[0];
    assert SUITS[0] == 'C' && SUITS[1] == 'D' && SUITS[2] == 'H' && SUITS[3] == 'S';
    var s :| 0 <= s < 4 && SUITS[s] == c[1];
    assert c == [c[0], c[1]];
    assert (13 * s + r) % 13 == r && (13 * s + r) / 13 == s;
    assert FullDeck()[13 * s + r] == c;
  }

  /** The parser tells the cards of the deck apart. */
  lemma {:induction false} ParseInjective(a: string, b: string)
    requires DeckCode(a) && DeckCode(b) && NewCard(a) == NewCard(b)
    ensures a == b
  {
    Parsed(a);
    Parsed(b);
    SuitsApart(a, b);
  }

  lemma {:induction false} SuitsApart(a: string, b: string)
    requires |a| == |b| == 2 && a[0] == b[0] && Lower(a[1]) == Lower(b[1])
    requires 'A' <= a[1] <= 'Z' && 'A' <= b[1] <= 'Z'
    ensures a == b
  {
    assert a[1] as int + 32 == b[1] as int + 32;
  }

  lemma {:induction false} Parsed(code: string)
    requires DeckCode(code)
    ensures NewCard(code).value == code[0] && NewCard(code).suit == Lower(code[1])
  {
    RanksApart(code[0]);
  }

  lemma {:induction false} RanksApart(c: char)
    requires c in CLIENT_RANK_ORDER
    ensures Upper(c) == c
  {
  }

  lemma {:induction false} ParseDeckCodes(codes: seq<string>)
    requires Distinct(codes) && forall c :: c in codes ==> DeckCode(c)
    ensures ValidCards(ParseAll(codes))
  {
    var cards := ParseAll(codes);
    forall i | 0 <= i < |codes| ensures ValidCard(cards[i]) {
      assert codes[i] in codes;
      ParsersAgree(codes[i]);
    }
    forall i, j | 0 <= i < j < |codes| ensures cards[i] != cards[j] {
      assert codes[i] in codes && codes[j] in codes;
      if cards[i] == cards[j] {
        ParseInjective(codes[i], codes[j]);
      }
    }
  }

  /** Every live player's hole cards and a full board are seven different cards, which the solver decides. */
  lemma {:induction false} ShowdownHandSolvable(t: Table, p: nat)
    requires CardsDealt(t) && |t.community| == 5 && p < |t.seats| && !t.seats[p].folded
    ensures var hand := HandOf(t.seats[p], t.community);
      && |hand| == 7 && (forall c :: c in hand ==> DeckCode(c)) && Solvable(ParseAll(hand))
  {
    var hand := HandOf(t.seats[p], t.community);
    HoleWithin(t.seats, p);
    assert multiset(hand) == multiset(t.seats[p].cards) + multiset(t.community);
    assert multiset(hand) <= AllCards(t);
    DistinctByCount(hand);
    forall c | c in hand ensures DeckCode(c) {
      assert c in multiset(hand) && c in AllCards(t);
    }
    ParseDeckCodes(hand);
    SmallPools(ParseAll(hand));
  }
}
