/** From a table between hands to the first decision, and from client requests to decisions. */
module HandStart {
  import opened Arithmetic
  import opened Tables
  import opened SidePots
  import opened SidePotProofs
  import opened Showdowns
  import opened ShowdownProofs
  import opened Betting
  import opened BettingInvariants
  import opened HandProgress

  /** What a table between hands guarantees: named seats, stacks that are not negative, ordered blinds. */
  ghost predicate Waiting(t: Table) {
    && UniqueNames(t.seats) && 0 <= t.smallBlind <= t.bigBlind
    && forall i :: 0 <= i < |t.seats| ==> t.seats[i].chips >= 0
  }

  // ---- Seats kept ----

  lemma {:induction false} KeptFrom(seats: seq<Seat>)
    ensures forall k :: 0 <= k < |KeepSeats(seats)| ==> KeepSeats(seats)[k] in seats
    ensures forall s :: s in seats && s.chips > 0 ==> s in KeepSeats(seats)
  {
    if seats != [] {
      KeptFrom(seats[1..]);
      assert forall s :: s in seats <==> s == seats[0] || s in seats[1..];
    }
  }

  /** Exactly the bots without chips lose their seat. */
  lemma {:induction false} BustedBotsLeave(seats: seq<Seat>)
    ensures forall s :: s in KeepSeats(seats) <==> s in seats && !(s.isBot && s.chips <= 0)
  {
    if seats != [] {
      BustedBotsLeave(seats[1..]);
      assert forall s :: s in seats <==> s == seats[0] || s in seats[1..];
    }
  }

  lemma {:induction false} KeptUnique(seats: seq<Seat>)
    requires UniqueNames(seats)
    ensures UniqueNames(KeepSeats(seats))
  {
    if seats != [] {
      var rest := seats[1..];
      KeptUnique(rest);
      KeptFrom(rest);
      forall k | 0 <= k < |KeepSeats(rest)| ensures KeepSeats(rest)[k].name != seats[0].name {
        var j :| 0 <= j < |rest| && rest[j] == KeepSeats(rest)[k];
        assert seats[j + 1] == rest[j];
      }
    }
  }

  lemma {:induction false} KeptChips(seats: seq<Seat>)
    requires forall i :: 0 <= i < |seats| ==> seats[i].chips >= 0
    ensures SumChips(KeepSeats(seats)) == SumChips(seats)
  {
    if seats != [] {
      KeptChips(seats[1..]);
      assert ([seats[0]] + KeepSeats(seats[1..]))[1..] == KeepSeats(seats[1..]);
      assert [] + KeepSeats(seats[1..]) == KeepSeats(seats[1..]);
    }
  }

  // ---- The blinds ----

  lemma {:induction false} NoBets(seats: seq<Seat>)
    requires forall i :: 0 <= i < |seats| ==> seats[i].totalBet == 0
    ensures SumTotalBets(seats) == 0
  {
    if seats != [] {
      NoBets(seats[1..]);
    }
  }

  /** A seat as `ResetSeat` leaves it. */
  predicate Fresh(s: Seat) {
    s.chips >= 0 && s.roundBet == s.totalBet == 0 && !s.allIn && (s.folded <==> !DealtIn(s))
  }

  lemma {:induction false} BlindPositions(n: nat, orbit: nat)
    requires n >= 2 && orbit < n
    ensures 0 <= SmallBlindAt(orbit, n) < n && 0 <= BigBlindAt(orbit, n) < n
        && SmallBlindAt(orbit, n) != BigBlindAt(orbit, n)
    ensures orbit % n == orbit
  {
    ModIs(orbit, 0, orbit, n);
    ModSucc(orbit, n);
    ModSucc(orbit + 1, n);
  }

  lemma {:induction false} OrbitFits(count: int, n: nat)
    requires n > 0
    ensures 0 <= NextOrbit(count, n) < n
  {
  }

  /** Posting a blind from a stack that has not bet. */
  lemma {:induction false} BlindPosted(seats: seq<Seat>, i: nat, amount: int)
    requires i < |seats| && amount >= 0 && DealtIn(seats[i]) && Fresh(seats[i])
    ensures var r := seats[i := PlaceBet(seats[i], amount)];
      && SeatOk(r[i]) && r[i].name == seats[i].name
      && SumChips(r) == SumChips(seats) - BetSize(seats[i], amount)
      && SumTotalBets(r) == SumTotalBets(seats) + BetSize(seats[i], amount)
  {
    SumUpdate(seats, i, PlaceBet(seats[i], amount));
  }

  lemma {:induction false} BlindsPosted(seats: seq<Seat>, sb: nat, bb: nat, small: int, big: int)
    requires sb < |seats| && bb < |seats| && sb != bb && 0 <= small && 0 <= big
    requires UniqueNames(seats) && (forall i :: 0 <= i < |seats| ==> Fresh(seats[i]))
    requires DealtIn(seats[sb]) && DealtIn(seats[bb])
    ensures var s4 := seats[sb := PlaceBet(seats[sb], small)];
      var r := s4[bb := PlaceBet(s4[bb], big)];
      && UniqueNames(r) && (forall i :: 0 <= i < |r| ==> SeatOk(r[i]))
      && SumTotalBets(r) == BetSize(seats[sb], small) + BetSize(s4[bb], big)
      && SumChips(r) + SumTotalBets(r) == SumChips(seats)
  {
    NoBets(seats);
    BlindPosted(seats, sb, small);
    BlindPosted(seats[sb := PlaceBet(seats[sb], small)], bb, big);
  }

  /** Everything about a seat that the blinds and the buttons leave alone. */
  ghost predicate SamePeople(a: seq<Seat>, b: seq<Seat>) {
    |a| == |b|
    && forall i :: 0 <= i < |a| ==>
        PersonAt(b[i]) == PersonAt(a[i]) && b[i].folded == a[i].folded && b[i].cards == a[i].cards
  }

  lemma {:induction false} PostBlindsKeeps(t: Table, sb: nat, bb: nat)
    requires |t.seats| >= 2 && sb < |t.seats| && bb < |t.seats| && sb != bb && 0 <= t.smallBlind <= t.bigBlind
    requires UniqueNames(t.seats) && (forall i :: 0 <= i < |t.seats| ==> Fresh(t.seats[i]))
    requires DealtIn(t.seats[sb]) && DealtIn(t.seats[bb])
    requires t.phaseIndex == 0 && t.gameStarted && !t.intermission
    ensures var r := PostBlinds(t, sb, bb);
      && Books(r) && Money(r) == SumChips(t.seats) && SamePeople(t.seats, r.seats)
      && forall i :: 0 <= i < |t.seats| && t.seats[i].folded ==>
          r.seats[i].chips == t.seats[i].chips && r.seats[i].totalBet == 0
  {
    BlindsPosted(t.seats, sb, bb, t.smallBlind, t.bigBlind);
    SumsFit(PostBlinds(t, sb, bb).seats);
  }

  lemma {:induction false} ButtonsKeep(seats: seq<Seat>, d: nat, sb: nat, bb: nat)
    ensures var r := SetButtons(seats, d, sb, bb);
      && SamePeople(seats, r) && SumChips(r) == SumChips(seats) && (UniqueNames(seats) ==> UniqueNames(r))
      && forall i :: 0 <= i < |seats| ==> (Fresh(seats[i]) ==> Fresh(r[i])) && (DealtIn(seats[i]) ==> DealtIn(r[i]))
  {
    SumChipsSame(seats, SetButtons(seats, d, sb, bb));
  }

  lemma {:induction false} SamePeopleTrans(a: seq<Seat>, b: seq<Seat>, c: seq<Seat>)
    requires SamePeople(a, b) && SamePeople(b, c)
    ensures SamePeople(a, c)
  {
  }

  /** The table with the buttons set, before the blinds are posted. */
  function Buttoned(t: Table, d: nat, sb: nat, bb: nat, orbit: int): Table {
    t.(seats := SetButtons(t.seats, d, sb, bb), dealerOrbitCount := orbit)
  }

  /** The button goes to the next dealt-in seat of the orbit, the blinds to two different dealt-in seats. */
  lemma {:induction false} BlindSeats(t: Table) returns (sb: nat, bb: nat)
    requires |DealtInFrom(t.seats, 0)| >= 2
    ensures var dealt := DealtInFrom(t.seats, 0);
      var orbit := NextOrbit(t.dealerOrbitCount, |dealt|);
      && 0 <= orbit < |dealt| && sb < |t.seats| && bb < |t.seats| && sb != bb
      && DealtIn(t.seats[sb]) && DealtIn(t.seats[bb])
      && RotateDealerAndBlinds(t) == PostBlinds(Buttoned(t, dealt[orbit], sb, bb, orbit), sb, bb)
  {
    var dealt := DealtInFrom(t.seats, 0);
    var n := |dealt|;
    var orbit := NextOrbit(t.dealerOrbitCount, n);
    OrbitFits(t.dealerOrbitCount, n);
    BlindPositions(n, orbit);
    sb, bb := dealt[SmallBlindAt(orbit, n)], dealt[BigBlindAt(orbit, n)];
  }

  /** The blinds open the hand's books with all the chips of the stacks; who is dealt out pays nothing. */
  ghost predicate Opens(t: Table, r: Table) {
    && Books(r) && Money(r) == SumChips(t.seats) && SamePeople(t.seats, r.seats)
    && r.deck == t.deck && r.community == t.community && r.phaseIndex == 0
    && r.smallBlind == t.smallBlind && r.bigBlind == t.bigBlind && r.gameFinished == t.gameFinished
    && forall i :: 0 <= i < |t.seats| && t.seats[i].folded ==>
        r.seats[i].chips == t.seats[i].chips && r.seats[i].totalBet == 0
  }

  lemma {:induction false} BlindsOpen(t: Table, d: nat, sb: nat, bb: nat, orbit: int)
    requires |t.seats| >= 2 && UniqueNames(t.seats) && 0 <= t.smallBlind <= t.bigBlind
    requires forall i :: 0 <= i < |t.seats| ==> Fresh(t.seats[i])
    requires t.phaseIndex == 0 && t.gameStarted && !t.intermission
    requires sb < |t.seats| && bb < |t.seats| && sb != bb && DealtIn(t.seats[sb]) && DealtIn(t.seats[bb])
    ensures Opens(t, PostBlinds(Buttoned(t, d, sb, bb, orbit), sb, bb))
  {
    ButtonsKeep(t.seats, d, sb, bb);
    var ready := Buttoned(t, d, sb, bb, orbit);
    PostBlindsKeeps(ready, sb, bb);
    SamePeopleTrans(t.seats, ready.seats, PostBlinds(ready, sb, bb).seats);
  }

  lemma {:induction false} RotateKeeps(t: Table)
    requires |t.seats| >= 2 && UniqueNames(t.seats) && 0 <= t.smallBlind <= t.bigBlind
    requires forall i :: 0 <= i < |t.seats| ==> Fresh(t.seats[i])
    requires |DealtInFrom(t.seats, 0)| >= 2 && t.phaseIndex == 0 && t.gameStarted && !t.intermission
    ensures Opens(t, RotateDealerAndBlinds(t))
  {
    var sb, bb := BlindSeats(t);
    var dealt := DealtInFrom(t.seats, 0);
    var orbit := NextOrbit(t.dealerOrbitCount, |dealt|);
    BlindsOpen(t, dealt[orbit], sb, bb, orbit);
  }

  /** One dealer: seat `d`. */
  ghost predicate ButtonAt(t: Table, r: Table, d: nat, orbit: int) {
    && r.dealerOrbitCount == orbit && |r.seats| == |t.seats|
    && forall i :: 0 <= i < |r.seats| ==> r.seats[i].name == t.seats[i].name && (r.seats[i].isDealer <==> i == d)
  }

  lemma {:induction false} ButtonPosted(t: Table, d: nat, sb: nat, bb: nat, orbit: int)
    requires sb < |t.seats| && bb < |t.seats|
    ensures ButtonAt(t, PostBlinds(Buttoned(t, d, sb, bb, orbit), sb, bb), d, orbit)
  {
  }

  /** The dealer is the dealt-in seat whose turn it is in the orbit. */
  lemma {:induction false} ButtonMoves(t: Table)
    requires |DealtInFrom(t.seats, 0)| >= 2
    ensures var dealt := DealtInFrom(t.seats, 0);
      var orbit := NextOrbit(t.dealerOrbitCount, |dealt|);
      0 <= orbit < |dealt| && ButtonAt(t, RotateDealerAndBlinds(t), dealt[orbit], orbit)
  {
    var sb, bb := BlindSeats(t);
    var dealt := DealtInFrom(t.seats, 0);
    var orbit := NextOrbit(t.dealerOrbitCount, |dealt|);
    ButtonPosted(t, dealt[orbit], sb, bb, orbit);
  }

  lemma {:induction false} SameDealtIn(a: seq<Seat>, b: seq<Seat>, i: nat)
    requires |a| == |b| && i <= |a|
    requires forall k :: 0 <= k < |a| ==> a[k].chips == b[k].chips && a[k].sittingOut == b[k].sittingOut
    ensures DealtInFrom(a, i) == DealtInFrom(b, i)
    decreases |a| - i
  {
    if i < |a| {
      SameDealtIn(a, b, i + 1);
    }
  }

  // ---- Dealing changes no stake ----

  lemma {:induction false} DealHoleCardsKeeps(t: Table, i: nat)
    requires i <= |t.seats|
    ensures var r := DealHoleCards(t, i);
      && |r.seats| == |t.seats| && r == t.(seats := r.seats, deck := r.deck)
      && forall j :: 0 <= j < |t.seats| ==>
           && r.seats[j] == t.seats[j].(cards := r.seats[j].cards)
           && (t.seats[j].folded ==> r.seats[j].cards == t.seats[j].cards)
    decreases |t.seats| - i
  {
    if i < |t.seats| {
      if t.seats[i].folded || |t.deck| < 2 {
        DealHoleCardsKeeps(t, i + 1);
      } else {
        DealHoleCardsKeeps(
          t.(seats := t.seats[i := t.seats[i].(cards := [t.deck[0], t.deck[1]])], deck := t.deck[2..]), i + 1);
      }
    }
  }

  /** The seats of the next hand, reset; bots without chips are gone. */
  function NextSeats(seats: seq<Seat>): seq<Seat> {
    KeepSeats(Map(seats, ResetSeat))
  }

  /** The table just before the button moves. */
  function BeforeDeal(t: Table, shuffled: seq<string>): Table {
    var kept := NextSeats(t.seats);
    t.(seats := kept, gameStarted := true, phaseIndex := 0, pot := 0, currentBet := 0,
       lastRaise := t.bigBlind, raisesThisRound := 0, community := [], intermission := false, payouts := [],
       deck := if |t.deck| < |kept| * 2 + 5 then shuffled else t.deck)
  }

  /** The table as the first round opens: blinds posted and cards dealt. */
  function Dealt(t: Table, shuffled: seq<string>): Table {
    DealHoleCards(RotateDealerAndBlinds(BeforeDeal(t, shuffled)), 0)
  }

  function CountDealtIn(seats: seq<Seat>): nat {
    if seats == [] then 0 else (if DealtIn(seats[0]) then 1 else 0) + CountDealtIn(seats[1..])
  }

  lemma {:induction false} DealtInCount(seats: seq<Seat>, i: nat)
    requires i <= |seats|
    ensures |DealtInFrom(seats, i)| == CountDealtIn(seats[i..])
    decreases |seats| - i
  {
    if i < |seats| {
      DealtInCount(seats, i + 1);
      assert seats[i..][1..] == seats[i + 1..];
    }
  }

  lemma {:induction false} KeptCount(seats: seq<Seat>)
    ensures CountDealtIn(KeepSeats(seats)) == CountDealtIn(seats)
  {
    if seats != [] {
      KeptCount(seats[1..]);
      assert ([seats[0]] + KeepSeats(seats[1..]))[1..] == KeepSeats(seats[1..]);
      assert [] + KeepSeats(seats[1..]) == KeepSeats(seats[1..]);
    }
  }

  lemma {:induction false} KeptDealtIn(seats: seq<Seat>)
    ensures |DealtInFrom(KeepSeats(seats), 0)| == |DealtInFrom(seats, 0)|
  {
    KeptCount(seats);
    DealtInCount(seats, 0);
    DealtInCount(KeepSeats(seats), 0);
    assert seats[0..] == seats && KeepSeats(seats)[0..] == KeepSeats(seats);
  }

  lemma {:induction false} NextSeatsFresh(seats: seq<Seat>)
    requires UniqueNames(seats) && forall i :: 0 <= i < |seats| ==> seats[i].chips >= 0
    ensures var kept := NextSeats(seats);
      && UniqueNames(kept) && (forall k :: 0 <= k < |kept| ==> Fresh(kept[k]) && kept[k].cards == CARD_BACKS)
      && SumChips(kept) == SumChips(seats) && |DealtInFrom(kept, 0)| == |DealtInFrom(seats, 0)| <= |kept|
  {
    var reset := Map(seats, ResetSeat);
    var kept := KeepSeats(reset);
    SameDealtIn(seats, reset, 0);
    KeptDealtIn(reset);
    KeptFrom(reset);
    KeptUnique(reset);
    KeptChips(reset);
    SumChipsSame(seats, reset);
    DealtInBounded(kept, 0);
    forall k | 0 <= k < |kept| ensures Fresh(kept[k]) && kept[k].cards == CARD_BACKS {
      assert kept[k] in reset;
      var i :| 0 <= i < |reset| && reset[i] == kept[k];
      assert reset[i] == ResetSeat(seats[i]);
    }
  }

  lemma {:induction false} DealtInBounded(seats: seq<Seat>, i: nat)
    requires i <= |seats|
    ensures |DealtInFrom(seats, i)| <= |seats| - i
    decreases |seats| - i
  {
    if i < |seats| {
      DealtInBounded(seats, i + 1);
    }
  }

  /** A hand that starts has sound books and all the chips that were on the stacks. */
  lemma {:induction false} DealtReady(t: Table, shuffled: seq<string>)
    requires Waiting(t) && |DealtInFrom(t.seats, 0)| >= 2
    ensures StartHand(t, shuffled) == (StartBettingRound(Dealt(t, shuffled)), true)
    ensures Books(Dealt(t, shuffled)) && Money(Dealt(t, shuffled)) == SumChips(t.seats)
  {
    var dealing := BeforeDeal(t, shuffled);
    NextSeatsFresh(t.seats);
    RotateKeeps(dealing);
    DealtBooks(RotateDealerAndBlinds(dealing));
  }

  lemma {:induction false} DealtBooks(t: Table)
    requires Books(t)
    ensures Books(DealHoleCards(t, 0)) && Money(DealHoleCards(t, 0)) == Money(t)
  {
    DealHoleCardsKeeps(t, 0);
    SameStacks(t.seats, DealHoleCards(t, 0).seats, 0);
  }

  lemma {:induction false} SumChipsSame(a: seq<Seat>, b: seq<Seat>)
    requires |a| == |b| && forall i :: 0 <= i < |a| ==> a[i].chips == b[i].chips
    ensures SumChips(a) == SumChips(b)
  {
    if a != [] {
      SumChipsSame(a[1..], b[1..]);
    }
  }

  // ---- Whole hands ----

  /** A hand that starts waits for a player who can act, or is already settled when the blinds put everyone all in. */
  lemma {:induction false} StartHandPlays(t: Table, shuffled: seq<string>)
    requires Waiting(t)
    ensures StartHand(t, shuffled).1 <==> |DealtInFrom(t.seats, 0)| >= 2
    ensures !StartHand(t, shuffled).1 ==> StartHand(t, shuffled).0 == t
    ensures StartHand(t, shuffled).1 ==>
              var b, r := Dealt(t, shuffled), StartHand(t, shuffled).0;
              && Books(b) && Money(b) == SumChips(t.seats)
              && (HandOver(b, r) || PlaysOn(b, r))
  {
    if |DealtInFrom(t.seats, 0)| >= 2 {
      var b := Dealt(t, shuffled);
      DealtReady(t, shuffled);
      RoundOpens(b);
      StakesCarry(b, StartBettingRound(b));
    }
  }

  lemma {:induction false} StakesCarry(b: Table, r: Table)
    requires Ends(b, r) || Continues(b, r)
    ensures HandOver(b, r) || PlaysOn(b, r)
  {
    if Ends(b, r) {
      var v :| r == Showdown(v) && ToShowdown(b, v);
      SettlesFrom(b, b, v);
    } else {
      ContinuesPlay(b, b, r);
    }
  }

  /** What a finished hand cost the table: bets no live player matched, and the remainders of splits. */
  function Lost(u: Table): int {
    if CountLive(u.seats) == 1 then 0
    else u.pot - Capped(u.seats, TopLiveBet(u.seats)) + Remainders(PotsOf(AtShowdown(u)), AtShowdown(u), u.community)
  }

  /** The books of a settled hand: stacks hold all the money of the table but the exact loss, which is never
      negative. */
  lemma {:induction false} SettledBalance(t: Table, u: Table)
    requires Settles(t, u)
    ensures SumChips(Showdown(u).seats) == Money(t) - Lost(u) && Lost(u) >= 0
  {
    if CountLive(u.seats) == 1 {
      var p := LoneSurvivor(u.seats);
      SurvivorTakesPot(u, p);
    } else {
      ShowdownAccounting(u);
    }
  }

  lemma {:induction false} LoneSurvivor(seats: seq<Seat>) returns (p: nat)
    requires CountLive(seats) == 1
    ensures p < |seats| && !seats[p].folded && forall i :: 0 <= i < |seats| && i != p ==> seats[i].folded
  {
    if seats[0].folded {
      var q := LoneSurvivor(seats[1..]);
      p := q + 1;
      assert forall i :: 1 <= i < |seats| ==> seats[i] == seats[1..][i - 1];
    } else {
      p := 0;
      CountZero(seats[1..]);
      assert forall i :: 1 <= i < |seats| ==> seats[i] == seats[1..][i - 1];
    }
  }

  lemma {:induction false} CountZero(seats: seq<Seat>)
    requires CountLive(seats) == 0
    ensures forall i :: 0 <= i < |seats| ==> seats[i].folded
  {
    if seats != [] {
      CountZero(seats[1..]);
      assert forall i :: 1 <= i < |seats| ==> seats[i] == seats[1..][i - 1];
    }
  }

  /** The hand ended at `r` in the showdown of `u`, and the stacks hold all the chips of `b` but the exact loss. */
  ghost predicate Balanced(b: Table, u: Table, r: Table) {
    && r == Showdown(u) && Settles(b, u)
    && SumChips(r.seats) == Money(b) - Lost(u) && Lost(u) >= 0
  }

  lemma {:induction false} OverBalanced(b: Table, r: Table) returns (u: Table)
    requires HandOver(b, r)
    ensures Balanced(b, u, r)
  {
    u :| r == Showdown(u) && Settles(b, u);
    SettledBalance(b, u);
  }

  /** From the deal to the last payout: chips are conserved at every decision, and accounted for exactly at the end. */
  lemma {:induction false} WholeHand(t: Table, shuffled: seq<string>, ds: seq<Decision>)
    requires Waiting(t) && StartHand(t, shuffled).1 && Accepted(StartHand(t, shuffled).0, ds)
    ensures var b, r := Dealt(t, shuffled), Play(StartHand(t, shuffled).0, ds);
      Money(b) == SumChips(t.seats) && (PlaysOn(b, r) || exists u :: Balanced(b, u, r))
  {
    var b, start := Dealt(t, shuffled), StartHand(t, shuffled).0;
    StartHandPlays(t, shuffled);
    var r := Play(start, ds);
    FromStart(b, start, ds);
    if HandOver(b, r) {
      var u := OverBalanced(b, r);
    }
  }

  lemma {:induction false} FromStart(b: Table, start: Table, ds: seq<Decision>)
    requires (HandOver(b, start) || PlaysOn(b, start)) && Accepted(start, ds)
    ensures HandOver(b, Play(start, ds)) || PlaysOn(b, Play(start, ds))
  {
    if PlaysOn(b, start) {
      EveryHandEnds(start, ds);
      PlaysOnFrom(b, start, Play(start, ds));
    } else {
      OverMeansIntermission(b, start);
    }
  }

  lemma {:induction false} OverMeansIntermission(b: Table, r: Table)
    requires HandOver(b, r)
    ensures r.intermission
  {
  }

  // ---- Client requests ----

  /** The look-up by name finds the player to act exactly when the name is theirs. */
  lemma {:induction false} FindsActor(t: Table, name: string)
    requires InPlay(t)
    ensures PlayerNamed(t.seats, name) == Seated(t) <==> t.seats[Seated(t)].name == name
  {
    var ix := PlayerNamed(t.seats, name);
    assert t.seats[Seated(t)].name == name ==> ix <= Seated(t);
  }

  /** At a table in play a bot whose turn it is takes it, and a person is waited for. */
  lemma {:induction false} BotReplies(u: Table, bot: Decision)
    requires InPlay(u)
    ensures ProcessCurrent(u, bot) == if u.gameFinished || !u.seats[Seated(u)].isBot then u else Act(u, bot)
  {
  }

  /** One automatic step of a hand in play: a bot to act takes its decision, a person is waited for. */
  lemma {:induction false} AutomaticStep(t: Table, shuffled: seq<string>, bot: Decision)
    requires InPlay(t) && !t.gameFinished && Legal(t, Seated(t), bot.action)
    ensures var (r, moved) := AdvanceOneStep(t, shuffled, bot);
      moved && (if t.seats[Seated(t)].isBot then r == Act(t, bot) else r == t) && (HandOver(t, r) || PlaysOn(t, r))
  {
    BotReplies(t, bot);
    ActKeeps(t, bot);
  }

  /** Between hands a step starts one where two can be dealt in; during a pause it does nothing. */
  lemma {:induction false} AutomaticStart(t: Table, shuffled: seq<string>, bot: Decision)
    requires Waiting(t) && !t.gameStarted && !t.gameFinished
    ensures var (r, moved) := AdvanceOneStep(t, shuffled, bot);
      && (moved <==> !t.intermission)
      && if moved && |DealtInFrom(t.seats, 0)| >= 2 then
           HandOver(Dealt(t, shuffled), r) || PlaysOn(Dealt(t, shuffled), r)
         else r == t
  {
    StartHandPlays(t, shuffled);
  }

  /** The seat to act holds the first player of that name who can still act. */
  predicate ToAct(t: Table, name: string) {
    && t.seats != []
    && var k := Seated(t);
    && t.seats[k].name == name && !t.seats[k].folded && !t.seats[k].allIn
    && forall j :: 0 <= j < k && t.seats[j].name == name ==> t.seats[j].folded
  }

  /** At any table, a request is accepted exactly from the player to act, for a legal action; in a hand being played
      that is whoever the turn is with. */
  lemma {:induction false} HumanActionGate(t: Table, name: string, action: string, amount: int, bot: Decision)
    ensures var (r, ok) := HumanAction(t, name, action, amount, bot);
      (ok <==> ToAct(t, name) && Legal(t, Seated(t), ActionOf(action))) && (!ok ==> r == t)
    ensures InPlay(t) ==> (ToAct(t, name) <==> t.seats[Seated(t)].name == name)
  {
  }

  function TimeoutAction(t: Table): string
    requires t.seats != []
  {
    if t.seats[Seated(t)].roundBet >= t.currentBet then "check" else "fold"
  }

  /** What the turn clock does for an absent player is always accepted. */
  lemma {:induction false} TimeoutAccepted(t: Table, bot: Decision)
    requires InPlay(t)
    ensures HumanAction(t, t.seats[Seated(t)].name, TimeoutAction(t), 0, bot).1
  {
    HumanActionGate(t, t.seats[Seated(t)].name, TimeoutAction(t), 0, bot);
  }

  lemma {:induction false} AcceptedRequest(t: Table, name: string, action: string, amount: int, bot: Decision)
    requires InPlay(t) && HumanAction(t, name, action, amount, bot).1
    ensures var d := Decision(ActionOf(action), amount);
      && Legal(t, Seated(t), d.action)
      && HumanAction(t, name, action, amount, bot).0
         == if IsBettingRoundComplete(ApplyDecision(t, Seated(t), d.action, amount)) then Act(t, d)
            else ProcessCurrent(Act(t, d), bot)
  {
    FindsActor(t, name);
  }

  /** An accepted request is one decision, or two when a bot replies at once. */
  lemma {:induction false} HumanActionPlays(t: Table, name: string, action: string, amount: int, bot: Decision)
    requires InPlay(t) && HumanAction(t, name, action, amount, bot).1
    requires var u := Act(t, Decision(ActionOf(action), amount)); InPlay(u) ==> Legal(u, Seated(u), bot.action)
    ensures var d, r := Decision(ActionOf(action), amount), HumanAction(t, name, action, amount, bot).0;
      (Accepted(t, [d]) && r == Play(t, [d])) || (Accepted(t, [d, bot]) && r == Play(t, [d, bot]))
  {
    var d, r := Decision(ActionOf(action), amount), HumanAction(t, name, action, amount, bot).0;
    AcceptedRequest(t, name, action, amount, bot);
    OneDecision(t, d);
    if r != Act(t, d) {
      ActKeeps(t, d);
      BotReplies(Act(t, d), bot);
      TwoDecisions(t, d, bot);
    }
  }

  lemma {:induction false} OneDecision(t: Table, d: Decision)
    requires t.seats != [] && !t.intermission && Legal(t, Seated(t), d.action)
    ensures Accepted(t, [d]) && Play(t, [d]) == Act(t, d)
  {
    assert [d][1..] == [];
  }

  lemma {:induction false} TwoDecisions(t: Table, d: Decision, e: Decision)
    requires t.seats != [] && !t.intermission && Legal(t, Seated(t), d.action)
    requires Act(t, d).seats != [] && !Act(t, d).intermission && Legal(Act(t, d), Seated(Act(t, d)), e.action)
    ensures Accepted(t, [d, e]) && Play(t, [d, e]) == Act(Act(t, d), e)
  {
    assert [d, e][1..] == [e];
    OneDecision(Act(t, d), e);
  }
}
