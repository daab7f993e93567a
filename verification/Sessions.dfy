/** Hand after hand at one table: the cards, the stacks, who sits out, and the button. */
module Sessions {
  import opened Arithmetic
  import opened Sequences
  import opened Cards
  import opened BestHand
  import opened SolverTheorem
  import opened Tables
  import opened SidePots
  import opened SidePotProofs
  import opened Showdowns
  import opened ShowdownProofs
  import opened Betting
  import opened BettingInvariants
  import opened Dealing
  import opened HandProgress
  import opened HandStart
  import opened Blinds

  /** A table between hands whose remaining deck holds no card twice. */
  ghost predicate Ready(t: Table) {
    Waiting(t) && SoundCards(multiset(t.deck))
  }

  ghost predicate Shuffled(deck: seq<string>) {
    multiset(deck) == multiset(FullDeck())
  }

  // Two cards a seat and the board must fit in one deck.
  const MOST_SEATS := 23

  // ---- Cards ----

  /** However little of the deck was left, the reshuffle test covers the whole hand: no card twice, nobody short. */
  lemma {:induction false} DealtSound(t: Table, shuffled: seq<string>)
    requires Ready(t) && Shuffled(shuffled) && |DealtInFrom(t.seats, 0)| >= 2 && |NextSeats(t.seats)| <= MOST_SEATS
    ensures CardsDealt(Dealt(t, shuffled))
  {
    DeckCovers(t, shuffled);
    CardsDealtOut(RotateDealerAndBlinds(BeforeDeal(t, shuffled)));
  }

  lemma {:induction false} LiveSame(a: seq<Seat>, b: seq<Seat>)
    requires |a| == |b| && forall i :: 0 <= i < |a| ==> a[i].folded == b[i].folded
    ensures CountLive(a) == CountLive(b) <= |a|
  {
    if a != [] {
      LiveSame(a[1..], b[1..]);
    }
  }

  /** The cards come off the top of the deck left over, while it covers a full table and a board, else of a fresh
      one. */
  lemma {:induction false} DeckGoesOn(t: Table, shuffled: seq<string>)
    ensures var b := Dealt(t, shuffled);
      var deck := if |t.deck| >= 2 * |b.seats| + 5 then t.deck else shuffled;
      |deck| >= 2 * |b.seats| ==> 2 * CountLive(b.seats) <= |deck| && b.deck == deck[2 * CountLive(b.seats)..]
  {
    var b, ready := Dealt(t, shuffled), RotateDealerAndBlinds(BeforeDeal(t, shuffled));
    DealHoleCardsKeeps(ready, 0);
    LiveSame(b.seats, ready.seats);
    assert ready.seats[0..] == ready.seats;
    if |ready.deck| >= 2 * |b.seats| {
      DeckUsed(ready, 0);
    }
  }

  /** The table the cards are dealt at: nobody holds a card, the board is empty, and the deck covers the hand. */
  ghost predicate Undealt(r: Table) {
    && SoundCards(multiset(r.deck)) && |r.deck| >= 2 * |r.seats| + 5 && r.community == [] && r.phaseIndex == 0
    && forall i :: 0 <= i < |r.seats| ==> r.seats[i].cards == CARD_BACKS
  }

  lemma {:induction false} DeckCovers(t: Table, shuffled: seq<string>)
    requires Ready(t) && Shuffled(shuffled) && |DealtInFrom(t.seats, 0)| >= 2 && |NextSeats(t.seats)| <= MOST_SEATS
    ensures Undealt(RotateDealerAndBlinds(BeforeDeal(t, shuffled)))
  {
    var dealing := BeforeDeal(t, shuffled);
    NextSeatsFresh(t.seats);
    FullDeckSound(shuffled);
    assert Undealt(dealing);
    RotatedUndealt(dealing);
  }

  lemma {:induction false} RotatedUndealt(t: Table)
    requires |t.seats| >= 2 && UniqueNames(t.seats) && 0 <= t.smallBlind <= t.bigBlind
    requires forall i :: 0 <= i < |t.seats| ==> Fresh(t.seats[i])
    requires |DealtInFrom(t.seats, 0)| >= 2 && t.phaseIndex == 0 && t.gameStarted && !t.intermission
    requires Undealt(t)
    ensures Undealt(RotateDealerAndBlinds(t))
  {
    RotateKeeps(t);
  }

  lemma {:induction false} CardsDealtOut(r: Table)
    requires Undealt(r)
    ensures CardsDealt(DealHoleCards(r, 0))
  {
    NoHoles(r.seats);
    assert AllCards(r) == multiset(r.deck);
    HoleCardsDealt(r, 0);
  }

  /** A contested showdown has its whole board, and every live hand is seven different cards the solver decides. */
  lemma {:induction false} ContestedHands(b: Table, u: Table, p: nat)
    requires CardsDealt(b) && Settles(b, u) && CountLive(u.seats) >= 2 && p < |u.seats| && !u.seats[p].folded
    ensures |u.community| == 5
    ensures var hand := HandOf(u.seats[p], u.community);
      |hand| == 7 && (forall c :: c in hand ==> DeckCode(c)) && Solvable(ParseAll(hand))
  {
    ShowdownHandSolvable(u, p);
  }

  // ---- Stacks ----

  lemma {:induction false} ShareFits(amount: int, k: nat)
    requires amount >= 0
    ensures SplitShare(amount, k) >= 0
  {
    if k > 0 {
      Monotone(0, amount / (k * k), k);
    }
  }

  lemma {:induction false} SharesFit(pots: seq<SidePot>, seats: seq<Seat>, board: seq<string>, p: nat)
    requires PotsOn(pots, seats) && forall k :: 0 <= k < |pots| ==> pots[k].amount >= 0
    ensures ShareOfPots(pots, seats, board, p) >= 0
  {
    if pots != [] {
      SharesFit(pots[1..], seats, board, p);
      var live := LiveOf(pots[0].eligible, seats);
      ShareFits(pots[0].amount, |BestOfLive(live, live, seats, board)|);
    }
  }

  lemma {:induction false} NoShare(pots: seq<SidePot>, seats: seq<Seat>, board: seq<string>, p: nat)
    requires PotsOn(pots, seats) && p < |seats| && seats[p].folded
    ensures ShareOfPots(pots, seats, board, p) == 0
  {
    if pots != [] {
      NoShare(pots[1..], seats, board, p);
    }
  }

  /** A showdown takes nothing from a stack, and gives nothing to one that is out of the hand. */
  lemma {:induction false} ShowdownStack(u: Table, p: nat)
    requires UniqueNames(u.seats) && BetsFit(u.seats) && u.pot >= SumTotalBets(u.seats) && p < |u.seats|
    ensures |Showdown(u).seats| == |u.seats|
    ensures var r := Showdown(u).seats[p];
      && r == u.seats[p].(roundBet := 0, chips := r.chips)
      && r.chips >= u.seats[p].chips && (u.seats[p].folded ==> r.chips == u.seats[p].chips)
  {
    if CountLive(u.seats) == 1 {
      var q := LoneSurvivor(u.seats);
      SurvivorTakesPot(u, q);
      BetsSum(u.seats);
    } else {
      var seats := AtShowdown(u);
      ShowdownPays(u, p);
      PotsNonNegative(seats);
      SharesFit(PotsOf(seats), seats, u.community, p);
      if seats[p].folded {
        NoShare(PotsOf(seats), seats, u.community, p);
      }
    }
  }

  lemma {:induction false} BetsSum(seats: seq<Seat>)
    requires BetsFit(seats)
    ensures SumTotalBets(seats) >= 0
  {
    if seats != [] {
      BetsSum(seats[1..]);
    }
  }

  // ---- From one hand to the next ----

  datatype Script = Script(shuffled: seq<string>, decisions: seq<Decision>)

  function AfterHand(t: Table, s: Script): Table {
    Play(StartHand(t, s.shuffled).0, s.decisions)
  }

  /** The hand starts, every decision is accepted, and the last one ends it. */
  ghost predicate Completed(t: Table, s: Script) {
    && Shuffled(s.shuffled) && StartHand(t, s.shuffled).1
    && Accepted(StartHand(t, s.shuffled).0, s.decisions) && AfterHand(t, s).intermission
  }

  /** The showdown a completed hand ended in. */
  lemma {:induction false} EndOf(t: Table, s: Script) returns (u: Table)
    requires Waiting(t) && Completed(t, s)
    ensures |DealtInFrom(t.seats, 0)| >= 2 && Money(Dealt(t, s.shuffled)) == SumChips(t.seats)
    ensures Balanced(Dealt(t, s.shuffled), u, AfterHand(t, s))
  {
    StartHandPlays(t, s.shuffled);
    WholeHand(t, s.shuffled, s.decisions);
    u :| Balanced(Dealt(t, s.shuffled), u, AfterHand(t, s));
  }

  /** What the opening of a hand fixes for all of it, from the seats reset for it. */
  ghost predicate Fixed(t: Table, kept: seq<Seat>, b: Table) {
    && |b.seats| == |kept| && b.smallBlind == t.smallBlind && b.bigBlind == t.bigBlind
        && b.gameFinished == t.gameFinished
    && (forall j :: 0 <= j < |kept| ==> PersonAt(b.seats[j]) == PersonAt(kept[j]))
    && forall j :: 0 <= j < |kept| && !DealtIn(kept[j]) ==>
         && b.seats[j].folded && b.seats[j].chips == kept[j].chips && b.seats[j].totalBet == 0
             && b.seats[j].cards == CARD_BACKS
  }

  lemma {:induction false} DealFixes(t: Table, r: Table)
    requires Opens(t, r) && forall j :: 0 <= j < |t.seats| ==> Fresh(t.seats[j]) && t.seats[j].cards == CARD_BACKS
    ensures Fixed(t, t.seats, DealHoleCards(r, 0))
  {
    DealHoleCardsKeeps(r, 0);
    var b := DealHoleCards(r, 0);
    forall j | 0 <= j < |t.seats|
      ensures PersonAt(b.seats[j]) == PersonAt(t.seats[j])
      ensures !DealtIn(t.seats[j]) ==>
        && b.seats[j].folded && b.seats[j].chips == t.seats[j].chips
        && b.seats[j].totalBet == 0 && b.seats[j].cards == CARD_BACKS
    {
      assert b.seats[j] == r.seats[j].(cards := b.seats[j].cards);
    }
  }

  lemma {:induction false} DealtFixes(t: Table, shuffled: seq<string>)
    requires Waiting(t) && |DealtInFrom(t.seats, 0)| >= 2
    ensures Fixed(t, NextSeats(t.seats), Dealt(t, shuffled))
  {
    var dealing := BeforeDeal(t, shuffled);
    NextSeatsFresh(t.seats);
    RotateKeeps(dealing);
    DealFixes(dealing, RotateDealerAndBlinds(dealing));
  }

  lemma {:induction false} ReadyAfter(b: Table, u: Table)
    requires Settles(b, u) && 0 <= b.smallBlind <= b.bigBlind
    ensures Waiting(Showdown(u))
    ensures CardsDealt(b) ==> SoundCards(multiset(Showdown(u).deck))
  {
    forall p | 0 <= p < |u.seats|
      ensures |Showdown(u).seats| == |u.seats| && Showdown(u).seats[p].name == u.seats[p].name
          && Showdown(u).seats[p].chips >= 0
    {
      ShowdownStack(u, p);
    }
    if CardsDealt(b) {
      assert forall c :: multiset(u.deck)[c] <= AllCards(u)[c];
    }
  }

  /** A completed hand leaves a table ready for the next, with no more chips on it than before. */
  lemma {:induction false} HandKeepsReady(t: Table, s: Script)
    requires Ready(t) && |t.seats| <= MOST_SEATS && Completed(t, s)
    ensures Ready(AfterHand(t, s)) && |AfterHand(t, s).seats| <= MOST_SEATS
    ensures CardsDealt(Dealt(t, s.shuffled))
    ensures SumChips(AfterHand(t, s).seats) <= SumChips(t.seats)
  {
    var u := EndOf(t, s);
    KeptShorter(Map(t.seats, ResetSeat));
    DealtFixes(t, s.shuffled);
    DealtSound(t, s.shuffled);
    ReadyAfter(Dealt(t, s.shuffled), u);
    SameLength(u);
  }

  lemma {:induction false} SameLength(u: Table)
    ensures |Showdown(u).seats| == |u.seats|
  {
  }

  lemma {:induction false} KeptShorter(seats: seq<Seat>)
    ensures |KeepSeats(seats)| <= |seats|
  {
    if seats != [] {
      KeptShorter(seats[1..]);
    }
  }

  // ---- Sitting out ----

  /** Whoever is dealt out keeps the same stack, bets nothing, holds no cards and is never to act, to the end of the
      hand. */
  lemma {:induction false} SittingOutIsSafe(t: Table, shuffled: seq<string>, ds: seq<Decision>, j: nat)
    requires Waiting(t) && StartHand(t, shuffled).1 && Accepted(StartHand(t, shuffled).0, ds)
    requires j < |NextSeats(t.seats)| && !DealtIn(NextSeats(t.seats)[j])
    ensures var r, before := Play(StartHand(t, shuffled).0, ds), NextSeats(t.seats)[j];
      && |r.seats| == |NextSeats(t.seats)| && r.seats[j].name == before.name
      && r.seats[j].chips == before.chips && r.seats[j].totalBet == 0 && r.seats[j].cards == CARD_BACKS
      && (InPlay(r) ==> Seated(r) != j) && (r.intermission || InPlay(r))
  {
    var b, r := Dealt(t, shuffled), Play(StartHand(t, shuffled).0, ds);
    StartHandPlays(t, shuffled);
    DealtFixes(t, shuffled);
    WholeHand(t, shuffled, ds);
    if !PlaysOn(b, r) {
      var u :| Balanced(b, u, r);
      ShowdownStack(u, j);
      OverMeansIntermission(b, r);
    }
  }

  // ---- The button and the blinds ----

  /** The names of the players who take part, in seat order. */
  function DealtNames(seats: seq<Seat>): seq<string> {
    if seats == [] then [] else (if DealtIn(seats[0]) then [seats[0].name] else []) + DealtNames(seats[1..])
  }

  lemma {:induction false} NamesOfDealtIn(seats: seq<Seat>, i: nat)
    requires i <= |seats|
    ensures var dealt := DealtInFrom(seats, i);
      |DealtNames(seats[i..])| == |dealt| && forall k :: 0 <= k < |dealt| ==>
          DealtNames(seats[i..])[k] == seats[dealt[k]].name
    decreases |seats| - i
  {
    if i < |seats| {
      NamesOfDealtIn(seats, i + 1);
      assert seats[i..][1..] == seats[i + 1..];
    }
  }

  lemma {:induction false} KeptNames(seats: seq<Seat>)
    ensures DealtNames(KeepSeats(seats)) == DealtNames(seats)
  {
    if seats != [] {
      KeptNames(seats[1..]);
      assert ([seats[0]] + KeepSeats(seats[1..]))[1..] == KeepSeats(seats[1..]);
      assert [] + KeepSeats(seats[1..]) == KeepSeats(seats[1..]);
    }
  }

  lemma {:induction false} SameNames(a: seq<Seat>, b: seq<Seat>)
    requires |a| == |b|
    requires forall i :: 0 <= i < |a| ==>
      a[i].name == b[i].name && a[i].chips == b[i].chips && a[i].sittingOut == b[i].sittingOut
    ensures DealtNames(a) == DealtNames(b)
  {
    if a != [] {
      SameNames(a[1..], b[1..]);
    }
  }

  predicate Holds(s: Seat, post: Post) {
    match post
    case Button => s.isDealer
    case SmallBlind => s.isSmallBlind
    case BigBlind => s.isBigBlind
  }

  /** The name of the player who holds it. */
  function Holder(t: Table, post: Post): string {
    var ix := IndexWhere(t.seats, (s: Seat) => Holds(s, post));
    if ix < |t.seats| then t.seats[ix].name else ""
  }

  lemma {:induction false} HolderIs(t: Table, post: Post, k: nat)
    requires k < |t.seats| && forall i :: 0 <= i < |t.seats| ==> (Holds(t.seats[i], post) <==> i == k)
    ensures Holder(t, post) == t.seats[k].name
  {
    var ix := IndexWhere(t.seats, (s: Seat) => Holds(s, post));
    assert Holds(t.seats[k], post);
  }

  /** Exactly as many are dealt in after the seats are reset, by the same names. */
  lemma {:induction false} NextNames(seats: seq<Seat>)
    requires UniqueNames(seats) && forall i :: 0 <= i < |seats| ==> seats[i].chips >= 0
    ensures var kept, names := NextSeats(seats), DealtNames(seats);
      && |DealtInFrom(kept, 0)| == |names| == |DealtInFrom(seats, 0)|
      && forall k :: 0 <= k < |names| ==> kept[DealtInFrom(kept, 0)[k]].name == names[k]
  {
    var kept := NextSeats(seats);
    NextSeatsFresh(seats);
    SameNames(seats, Map(seats, ResetSeat));
    KeptNames(Map(seats, ResetSeat));
    assert kept[0..] == kept && seats[0..] == seats;
    NamesOfDealtIn(kept, 0);
    NamesOfDealtIn(seats, 0);
  }

  /** Dealing the cards leaves button and blinds where they are. */
  lemma {:induction false} PostsStay(t: Table, r: Table, post: Post, k: nat)
    requires |r.seats| == |t.seats| && k < |t.seats|
    requires forall i :: 0 <= i < |r.seats| ==>
      r.seats[i].name == t.seats[i].name && (Holds(r.seats[i], post) <==> i == k)
    ensures Holder(DealHoleCards(r, 0), post) == t.seats[k].name
    ensures DealHoleCards(r, 0).dealerOrbitCount == r.dealerOrbitCount
  {
    DealHoleCardsKeeps(r, 0);
    HolderIs(DealHoleCards(r, 0), post, k);
  }

  lemma {:induction false} PostAt(t: Table, post: Post)
    requires |DealtInFrom(t.seats, 0)| >= 2
    ensures var dealt, r := DealtInFrom(t.seats, 0), DealHoleCards(RotateDealerAndBlinds(t), 0);
      var orbit := NextOrbit(t.dealerOrbitCount, |dealt|);
      && 0 <= orbit < |dealt| && r.dealerOrbitCount == orbit
      && Holder(r, post) == t.seats[dealt[Turn(orbit, post, |dealt|)]].name
  {
    var d, sb, bb := BlindsGo(t);
    PostGoes(t, RotateDealerAndBlinds(t), post, d, sb, bb);
  }

  lemma {:induction false} PostGoes(t: Table, r: Table, post: Post, d: nat, sb: nat, bb: nat)
    requires Posted(t, r, d, sb, bb) && d < |t.seats|
    ensures Holder(DealHoleCards(r, 0), post)
         == t.seats[match post case Button => d case SmallBlind => sb case BigBlind => bb].name
    ensures DealHoleCards(r, 0).dealerOrbitCount == r.dealerOrbitCount
  {
    PostsStay(t, r, post, match post case Button => d case SmallBlind => sb case BigBlind => bb);
  }

  /** The button of a hand is with the dealt-in player the orbit has come to, the blinds with those behind. */
  lemma {:induction false} PostOfHand(t: Table, shuffled: seq<string>, post: Post)
    requires Waiting(t) && |DealtInFrom(t.seats, 0)| >= 2
    ensures |DealtNames(t.seats)| >= 2
    ensures var names := DealtNames(t.seats);
      var orbit := NextOrbit(t.dealerOrbitCount, |names|);
      && 0 <= orbit < |names| && Dealt(t, shuffled).dealerOrbitCount == orbit
      && Holder(Dealt(t, shuffled), post) == names[Turn(orbit, post, |names|)]
  {
    NextNames(t.seats);
    PostAt(BeforeDeal(t, shuffled), post);
  }

  /** Hands played one after another; who holds a post in each. */
  function AfterHands(t: Table, scripts: seq<Script>): Table
    decreases |scripts|
  {
    if scripts == [] then t else AfterHands(AfterHand(t, scripts[0]), scripts[1..])
  }

  function Holders(t: Table, scripts: seq<Script>, post: Post): seq<string>
    decreases |scripts|
  {
    if scripts == [] then []
    else [Holder(Dealt(t, scripts[0].shuffled), post)] + Holders(AfterHand(t, scripts[0]), scripts[1..], post)
  }

  ghost predicate AllCompleted(t: Table, scripts: seq<Script>)
    decreases |scripts|
  {
    scripts == [] || (Completed(t, scripts[0]) && AllCompleted(AfterHand(t, scripts[0]), scripts[1..]))
  }

  /** The same players are dealt in for every one of the hands. */
  ghost predicate SamePlayersDealtIn(t: Table, scripts: seq<Script>, names: seq<string>)
    decreases |scripts|
  {
    scripts == [] || (DealtNames(t.seats) == names && SamePlayersDealtIn(AfterHand(t, scripts[0]), scripts[1..], names))
  }

  /** No number of hands ever doubles a card or creates a chip. */
  lemma {:induction false} HandsKeepReady(t: Table, scripts: seq<Script>)
    requires Ready(t) && |t.seats| <= MOST_SEATS && AllCompleted(t, scripts)
    ensures Ready(AfterHands(t, scripts)) && SumChips(AfterHands(t, scripts).seats) <= SumChips(t.seats)
    decreases |scripts|
  {
    if scripts != [] {
      HandKeepsReady(t, scripts[0]);
      HandsKeepReady(AfterHand(t, scripts[0]), scripts[1..]);
    }
  }

  /** A hand leaves the orbit where its button was. */
  lemma {:induction false} OrbitStays(t: Table, s: Script)
    requires Waiting(t) && Completed(t, s)
    ensures AfterHand(t, s).dealerOrbitCount == Dealt(t, s.shuffled).dealerOrbitCount && Waiting(AfterHand(t, s))
  {
    var u := EndOf(t, s);
    DealtFixes(t, s.shuffled);
    ReadyAfter(Dealt(t, s.shuffled), u);
  }

  /** One hand: who holds the post, and the orbit it leaves. */
  lemma {:induction false} PostStep(t: Table, s: Script, names: seq<string>, post: Post)
    requires Waiting(t) && Completed(t, s) && DealtNames(t.seats) == names
    ensures |names| >= 2 && Waiting(AfterHand(t, s))
    ensures var orbit := NextOrbit(t.dealerOrbitCount, |names|);
      && 0 <= orbit < |names| && AfterHand(t, s).dealerOrbitCount == orbit
      && Holder(Dealt(t, s.shuffled), post) == names[Turn(orbit, post, |names|)]
  {
    StartHandPlays(t, s.shuffled);
    PostOfHand(t, s.shuffled, post);
    OrbitStays(t, s);
  }

  /** One name after the other, from position `from` and around. */
  predicate Walks(holders: seq<string>, names: seq<string>, from: nat)
    requires from < |names|
    decreases |holders|
  {
    holders == [] || (holders[0] == names[from] && Walks(holders[1..], names, (from + 1) % |names|))
  }

  lemma {:induction false} WalksAt(holders: seq<string>, names: seq<string>, from: nat, k: nat)
    requires from < |names| && Walks(holders, names, from) && k < |holders|
    ensures holders[k] == names[(from + k) % |names|]
    decreases k
  {
    if k == 0 {
      ModIs(from, 0, from, |names|);
    } else {
      WalksAt(holders[1..], names, (from + 1) % |names|, k - 1);
      ModTwice(from + 1, k - 1, |names|);
    }
  }

  lemma {:induction false} WalkOn(first: string, rest: seq<string>, names: seq<string>, orbit: nat, post: Post)
    requires orbit < |names| && first == names[Turn(orbit, post, |names|)] && 0 <= NextOrbit(orbit, |names|)
    requires rest == [] || Walks(rest, names, Turn(NextOrbit(orbit, |names|), post, |names|))
    ensures Walks([first] + rest, names, Turn(orbit, post, |names|))
  {
    Onward(orbit, post, |names|);
    assert ([first] + rest)[1..] == rest;
  }

  lemma {:induction false} PostsWalk(t: Table, scripts: seq<Script>, names: seq<string>, post: Post)
    requires Waiting(t) && AllCompleted(t, scripts) && SamePlayersDealtIn(t, scripts, names) && scripts != []
    ensures names != [] && 0 <= NextOrbit(t.dealerOrbitCount, |names|) < |names|
    ensures Walks(Holders(t, scripts, post), names, Turn(NextOrbit(t.dealerOrbitCount, |names|), post, |names|))
    decreases |scripts|
  {
    var next, rest := AfterHand(t, scripts[0]), scripts[1..];
    PostStep(t, scripts[0], names, post);
    if rest != [] {
      PostsWalk(next, rest, names, post);
    }
    OrbitFits(NextOrbit(t.dealerOrbitCount, |names|), |names|);
    WalkOn(Holder(Dealt(t, scripts[0].shuffled), post), Holders(next, rest, post), names,
           NextOrbit(t.dealerOrbitCount, |names|), post);
  }

  lemma {:induction false} OneHolderEach(t: Table, scripts: seq<Script>, post: Post)
    ensures |Holders(t, scripts, post)| == |scripts|
    decreases |scripts|
  {
    if scripts != [] {
      OneHolderEach(AfterHand(t, scripts[0]), scripts[1..], post);
    }
  }

  lemma {:induction false} NamesDistinct(seats: seq<Seat>)
    requires UniqueNames(seats)
    ensures Distinct(DealtNames(seats)) && forall x :: x in DealtNames(seats) ==>
      exists i :: 0 <= i < |seats| && seats[i].name == x
  {
    if seats != [] {
      var rest := seats[1..];
      NamesDistinct(rest);
      forall x | x in DealtNames(rest) ensures exists i :: 1 <= i < |seats| && seats[i].name == x {
        var i :| 0 <= i < |rest| && rest[i].name == x;
        assert seats[i + 1].name == x;
      }
      assert seats[0].name !in DealtNames(rest);
    }
  }

  /** Over as many hands as there are dealt-in players, each of them holds the button and each blind exactly once. */
  lemma {:induction false} PostsRotate(t: Table, scripts: seq<Script>, post: Post)
    requires Waiting(t) && AllCompleted(t, scripts) && SamePlayersDealtIn(t, scripts, DealtNames(t.seats))
    requires |scripts| == |DealtNames(t.seats)|
    ensures Distinct(Holders(t, scripts, post))
    ensures forall x :: x in Holders(t, scripts, post) <==> x in DealtNames(t.seats)
  {
    var names := DealtNames(t.seats);
    NamesDistinct(t.seats);
    OneHolderEach(t, scripts, post);
    if names != [] {
      var n := |names|;
      PostsWalk(t, scripts, names, post);
      OnceAround(names, Holders(t, scripts, post), Turn(NextOrbit(t.dealerOrbitCount, n), post, n));
    }
  }

  lemma {:induction false} OnceAround(names: seq<string>, holders: seq<string>, orbit: nat)
    requires Distinct(names) && |holders| == |names| && orbit < |names| && Walks(holders, names, orbit)
    ensures Distinct(holders) && forall x :: x in holders <==> x in names
  {
    var n := |names|;
    forall i, j | 0 <= i < j < n ensures holders[i] != holders[j] {
      WalksAt(holders, names, orbit, i);
      WalksAt(holders, names, orbit, j);
      ModApart(orbit + i, j - i, n);
    }
    forall x | x in names ensures x in holders {
      var p: nat :| p < n && names[p] == x;
      var k := ComesUp(orbit, p, n);
      WalksAt(holders, names, orbit, k);
    }
    forall k | 0 <= k < n ensures holders[k] in names {
      WalksAt(holders, names, orbit, k);
    }
  }

  lemma {:induction false} ModApart(a: nat, d: nat, n: nat)
    requires 0 < d < n
    ensures a % n != (a + d) % n
  {
    ModTwice(a, d, n);
    if a % n + d < n { ModIs(a % n + d, 0, a % n + d, n); } else { ModIs(a % n + d, 1, a % n + d - n, n); }
  }
}
