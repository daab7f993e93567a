/** The engine: one table's game record, its players and the turn pointer, advanced step by step.
    Each method is tied to the table function that specifies it. */
module Engine {
  import opened Tables
  import opened SidePots
  import opened SidePotProofs
  import opened Showdowns
  import opened ShowdownProofs
  import opened ShowdownSteps
  import opened Betting
  import opened Dealing
  import opened BettingInvariants
  import opened HandProgress
  import opened HandStart
  import opened Sessions
  import opened Players

  datatype Game = Game(
    pot: int, currentBet: int, lastRaise: int, raisesThisRound: int,
    phaseIndex: int, smallBlind: int, bigBlind: int, dealerOrbitCount: int,
    gameStarted: bool, gameFinished: bool, intermission: bool,
    deck: seq<string>, community: seq<string>, payouts: seq<Payout>)

  ghost function AsTable(g: Game, seats: seq<Seat>, current: nat): Table {
    Table(seats, current, g.pot, g.currentBet, g.lastRaise, g.raisesThisRound, g.phaseIndex, g.smallBlind, g.bigBlind,
          g.dealerOrbitCount, g.gameStarted, g.gameFinished, g.intermission, g.deck, g.community, g.payouts)
  }

  // ---- What the engine's methods rely on ----

  lemma {:induction false} BoardReady(t: Table)
    requires CardsDealt(t) && |t.community| == 5
    ensures Contestable(t.seats, t.community)
  {
    forall i | 0 <= i < |t.seats| && !t.seats[i].folded ensures Decidable(HandOf(t.seats[i], t.community)) {
      ShowdownHandSolvable(t, i);
    }
  }

  lemma {:induction false} NoneLive(seats: seq<Seat>)
    ensures CountLive(seats) == 0 ==> forall i :: 0 <= i < |seats| ==> seats[i].folded
  {
    if CountLive(seats) == 0 {
      CountZero(seats);
    }
  }

  lemma {:induction false} SomeoneLive(seats: seq<Seat>)
    requires CountLive(seats) == 1
    ensures SoleSurvivor(seats) < |seats|
  {
    var p := LoneSurvivor(seats);
  }

  lemma {:induction false} CommitCards(t: Table, i: nat, bet: int, need: int)
    requires i < |t.seats| && CardsDealt(t)
    ensures CardsDealt(Tables.CommitBet(t, i, bet, need))
        && Tables.CommitBet(t, i, bet, need).phaseIndex == t.phaseIndex
  {
    SameCardsDealt(t, Tables.CommitBet(t, i, bet, need));
  }

  lemma {:induction false} RaiseCards(t: Table, i: nat, action: Action, amount: int)
    requires i < |t.seats| && CardsDealt(t) && (action == Raise || action == AllIn)
    ensures var u := Tables.CommitBet(Marked(t, i), i, BetOf(t, i, action, amount), t.currentBet - t.seats[i].roundBet);
      CardsDealt(u) && u.phaseIndex == t.phaseIndex
  {
    SameCardsDealt(t, Marked(t, i));
    CommitCards(Marked(t, i), i, BetOf(t, i, action, amount), t.currentBet - t.seats[i].roundBet);
  }

  /** A decision moves no card and opens no street. */
  lemma {:induction false} DecisionCards(t: Table, i: nat, action: Action, amount: int)
    requires i < |t.seats| && CardsDealt(t)
    ensures CardsDealt(Tables.ApplyDecision(t, i, action, amount))
    ensures Tables.ApplyDecision(t, i, action, amount).phaseIndex == t.phaseIndex
  {
    if action == Raise || action == AllIn {
      RaiseCommits(t, i, action, amount);
      RaiseCards(t, i, action, amount);
    } else {
      SeatCards(t, i, action, amount);
    }
  }

  lemma {:induction false} SeatCards(t: Table, i: nat, action: Action, amount: int)
    requires i < |t.seats| && CardsDealt(t) && action != Raise && action != AllIn
    ensures CardsDealt(Tables.ApplyDecision(t, i, action, amount))
    ensures Tables.ApplyDecision(t, i, action, amount).phaseIndex == t.phaseIndex
  {
    var u := Tables.ApplyDecision(t, i, action, amount);
    assert forall j :: 0 <= j < |t.seats| && j != i ==> u.seats[j] == t.seats[j];
    assert u.seats[i].cards == t.seats[i].cards;
    SameCardsDealt(t, u);
  }

  lemma {:induction false} OpenRoundCards(t: Table)
    requires CardsDealt(t)
    ensures CardsDealt(Betting.OpenRound(t)) && StreetsLeft(Betting.OpenRound(t)) == StreetsLeft(t)
    ensures Betting.OpenRound(t).phaseIndex == t.phaseIndex
  {
    SameCardsDealt(t, Betting.OpenRound(t));
  }

  lemma {:induction false} LastStreetCards(t: Table)
    requires CardsDealt(t) && t.phaseIndex >= SHOWDOWN - 1
    ensures Contestable(t.seats, t.community)
  {
    BoardReady(t);
  }

  lemma {:induction false} StreetCardsDealt(t: Table)
    requires CardsDealt(t) && 0 <= t.phaseIndex < SHOWDOWN - 1
    ensures CardsDealt(StreetDealtOut(t)) && StreetDealtOut(t).phaseIndex == t.phaseIndex + 1
  {
    StreetDealt(t);
  }

  function StreetEntered(t: Table): Table {
    if t.phaseIndex + 1 >= SHOWDOWN then Showdown(t.(phaseIndex := t.phaseIndex + 1))
    else Betting.StartBettingRound(StreetDealtOut(t))
  }

  lemma {:induction false} RoundCases(t: Table)
    ensures Betting.StartBettingRound(t)
         == if t.phaseIndex >= SHOWDOWN then Showdown(t) else RoundEntered(Betting.OpenRound(t))
  {
  }

  lemma {:induction false} PhaseCases(t: Table)
    ensures Betting.AdvancePhase(t) == if CountLive(t.seats) <= 1 then Showdown(t) else StreetEntered(t)
  {
  }

  /** The table with the turn at a seat that can act, if the seat to act cannot. */
  function Skipped(t: Table): Table
    requires t.seats != []
  {
    if Actionable(t.seats[Seated(t)]) then t else MovedOn(t)
  }

  function MovedOn(t: Table): Table {
    FindNextActionable(t.(current := t.current + 1))
  }

  lemma {:induction false} MovedOnCards(t: Table)
    requires CardsDealt(t)
    ensures CardsDealt(MovedOn(t)) && MovedOn(t).phaseIndex == t.phaseIndex
  {
    SameCardsDealt(t, MovedOn(t));
  }

  predicate BotToAct(t: Table)
    requires t.seats != []
  {
    t.seats[Seated(t)].isBot && Actionable(t.seats[Seated(t)])
  }

  lemma {:induction false} SkippedCards(t: Table)
    requires CardsDealt(t) && t.seats != []
    ensures CardsDealt(Skipped(t)) && Skipped(t).phaseIndex == t.phaseIndex && Skipped(t).seats != []
  {
    MovedOnCards(t);
  }

  lemma {:induction false} ProcessCases(t: Table, bot: Decision)
    ensures ProcessCurrent(t, bot)
         == if t.gameFinished || t.intermission || t.seats == [] then t
            else if BotToAct(Skipped(t)) then Act(Skipped(t), bot) else Skipped(t)
  {
  }

  lemma {:induction false} PassCases(t: Table)
    ensures Betting.PassTurn(t) == if Tables.IsBettingRoundComplete(t) then Betting.AdvancePhase(t) else MovedOn(t)
  {
  }

  lemma {:induction false} AfterCases(t: Table, bot: Decision)
    ensures AfterDecision(t, bot)
         == if Tables.IsBettingRoundComplete(t) then Betting.AdvancePhase(t) else ProcessCurrent(MovedOn(t), bot)
  {
  }

  /** The button and the blinds walk the dealt-in players; heads up, the dealer posts the small blind. */
  method SeatsOfOrbit(dealt: seq<nat>, count: int) returns (orbit: nat, d: nat, sb: nat, bb: nat)
    requires |dealt| >= 2
    ensures orbit == NextOrbit(count, |dealt|) < |dealt|
    ensures d == dealt[orbit % |dealt|]
    ensures sb == dealt[SmallBlindAt(orbit, |dealt|)] && bb == dealt[BigBlindAt(orbit, |dealt|)]
  {
    var n := |dealt|;
    orbit := if count < 0 then 0 else (count + 1) % n;
    var dealerIdx := orbit % n;
    var sbIdx, bbIdx := (dealerIdx + 1) % n, (dealerIdx + 2) % n;
    if n == 2 {
      sbIdx, bbIdx := dealerIdx, (dealerIdx + 1) % n;
    }
    d, sb, bb := dealt[dealerIdx], dealt[sbIdx], dealt[bbIdx];
  }

  lemma {:induction false} RotateCases(t: Table)
    ensures var dealt := DealtInFrom(t.seats, 0);
      if |dealt| < 2 then Betting.RotateDealerAndBlinds(t) == t.(seats := NoButtons(t.seats))
      else
        var orbit := NextOrbit(t.dealerOrbitCount, |dealt|);
        var sb, bb := dealt[SmallBlindAt(orbit, |dealt|)], dealt[BigBlindAt(orbit, |dealt|)];
        orbit >= 0 && Betting.RotateDealerAndBlinds(t)
                      == Betting.PostBlinds(Buttoned(t, dealt[orbit % |dealt|], sb, bb, orbit), sb, bb)
  {
  }

  function FreshGame(g: Game, kept: nat, shuffled: seq<string>): Game {
    g.(gameStarted := true, phaseIndex := 0, pot := 0, currentBet := 0, lastRaise := g.bigBlind, raisesThisRound := 0,
       community := [], intermission := false, payouts := [],
       deck := if |g.deck| < kept * 2 + 5 then shuffled else g.deck)
  }

  lemma {:induction false} StartCases(t: Table, shuffled: seq<string>)
    requires Waiting(t)
    ensures Betting.StartHand(t, shuffled)
         == if |DealtInFrom(t.seats, 0)| < 2 then (t, false) else (Betting.StartBettingRound(Dealt(t, shuffled)), true)
  {
    if |DealtInFrom(t.seats, 0)| >= 2 {
      DealtReady(t, shuffled);
    }
  }

  lemma {:induction false} DealtReadyCards(t: Table, shuffled: seq<string>)
    requires Ready(t) && Shuffled(shuffled) && |t.seats| <= MOST_SEATS && |DealtInFrom(t.seats, 0)| >= 2
    ensures CardsDealt(Dealt(t, shuffled)) && Dealt(t, shuffled).phaseIndex == 0
  {
    KeptShorter(Map(t.seats, ResetSeat));
    DealtSound(t, shuffled);
    NextSeatsFresh(t.seats);
    RotateKeeps(BeforeDeal(t, shuffled));
    DealHoleCardsKeeps(Betting.RotateDealerAndBlinds(BeforeDeal(t, shuffled)), 0);
  }

  function PaidOut(t: Table, done: Settled): Table {
    t.(seats := done.seats, payouts := done.payouts, pot := 0, intermission := true, gameStarted := false)
  }

  function LastStanding(seats: seq<Seat>, sole: nat, pot: int): Settled
    requires sole < |seats|
  {
    Settled(Credit(seats, sole, pot), [Payout(0, seats[sole].name, pot)])
  }

  /** The two ways a hand is paid out, once the round bets are cleared. */
  lemma {:induction false} ShowdownCases(t: Table)
    ensures var seats := Map(t.seats, (s: Seat) => s.(roundBet := 0));
      && (CountLive(t.seats) >= 2 && Contestable(t.seats, t.community) ==> Contestable(seats, t.community))
      && (CountLive(seats) == 0 ==> Contestable(seats, t.community))
      && (CountLive(seats) == 1 ==>
           && SoleSurvivor(seats) < |seats|
           && Showdown(t) == PaidOut(t.(seats := seats), LastStanding(seats, SoleSurvivor(seats), t.pot)))
      && (CountLive(seats) != 1 ==>
           Showdown(t) == PaidOut(t.(seats := seats), SettlePots(Settled(seats, []), PotsOf(seats), 0, t.community)))
      && CountLive(seats) == CountLive(t.seats)
  {
    var seats := Map(t.seats, (s: Seat) => s.(roundBet := 0));
    SameLiveCount(t.seats, seats);
    NoneLive(seats);
    if CountLive(seats) == 1 {
      SomeoneLive(seats);
    }
  }

  /** What a decision does once the player is marked as having acted. */
  function AfterMark(t: Table, i: nat, action: Action, amount: int, needToCall: int): Table
    requires i < |t.seats|
  {
    match action
    case Fold => t.(seats := t.seats[i := t.seats[i].(folded := true)])
    case Check => t
    case Other => t
    case Call => PaidIn(t, i, if amount <= 0 then needToCall else amount)
    case Raise => Tables.CommitBet(t, i, if amount <= 0 then needToCall + t.lastRaise else amount, needToCall)
    case AllIn => Tables.CommitBet(t, i, t.seats[i].chips, needToCall)
  }

  function PaidIn(t: Table, i: nat, amount: int): Table
    requires i < |t.seats|
  {
    t.(seats := t.seats[i := Tables.PlaceBet(t.seats[i], amount)], pot := t.pot + BetSize(t.seats[i], amount))
  }

  lemma {:induction false} DecisionAfterMark(t: Table, i: nat, action: Action, amount: int)
    requires i < |t.seats|
    ensures Tables.ApplyDecision(t, i, action, amount)
         == AfterMark(Marked(t, i), i, action, amount, t.currentBet - t.seats[i].roundBet)
  {
  }

  /** The record after a bet; what goes beyond the call is a raise. */
  function Staked(g: Game, amt: int, roundBet: int, needToCall: int): Game {
    if amt > needToCall
    then g.(pot := g.pot + amt, currentBet := roundBet, lastRaise := amt - needToCall,
        raisesThisRound := g.raisesThisRound + 1)
    else g.(pot := g.pot + amt)
  }

  lemma {:induction false} PostedTable(g: Game, seats: seq<Seat>, current: nat, sb: nat, bb: nat)
    requires sb < |seats| && bb < |seats|
    ensures Betting.PostBlinds(AsTable(g, seats, current), sb, bb)
         == AsTable(g.(pot := PostedChips(seats, sb, bb, g.smallBlind, g.bigBlind), currentBet := g.bigBlind,
             lastRaise := g.bigBlind),
                    PostedSeats(seats, sb, bb, g.smallBlind, g.bigBlind), current)
  {
  }

  lemma {:induction false} StakedTable(g: Game, seats: seq<Seat>, current: nat, i: nat, bet: int, needToCall: int)
    requires i < |seats|
    ensures var amt := BetSize(seats[i], bet);
      Tables.CommitBet(AsTable(g, seats, current), i, bet, needToCall)
        == AsTable(Staked(g, amt, seats[i].roundBet + amt, needToCall), BetSeats(seats, i, bet, needToCall), current)
  {
  }

  /** Two cards from the deck to one seat. */
  function HandDealt(t: Table, i: nat): Table
    requires i < |t.seats| && |t.deck| >= 2
  {
    t.(seats := t.seats[i := t.seats[i].(cards := [t.deck[0], t.deck[1]])], deck := t.deck[2..])
  }

  lemma {:induction false} DealStep(t: Table, i: nat)
    requires i < |t.seats|
    ensures var next := if t.seats[i].folded || |t.deck| < 2 then t else HandDealt(t, i);
      Betting.DealHoleCards(t, i) == Betting.DealHoleCards(next, i + 1)
  {
  }

  class GameEngine {
    var game: Game
    var players: seq<Player>
    var current: nat

    /** The table as a value. */
    ghost function View(): Table
      reads this, players
    {
      AsTable(game, Snaps(players), current)
    }

    // ---- Decisions ----

    method CommitBet(i: nat, bet: int, needToCall: int) returns (amt: int)
      requires AllDifferent(players) && i < |players|
      modifies this, players
      ensures players == old(players)
      ensures View() == Tables.CommitBet(old(View()), i, bet, needToCall)
    {
      ghost var g, seats := game, Snaps(players);
      var roundBet;
      amt, roundBet := CommitSeats(players, i, bet, needToCall);
      ghost var placed := Snaps(players);
      game := Staked(game, amt, roundBet, needToCall);
      assert View() == AsTable(Staked(g, amt, roundBet, needToCall), placed, current);
      StakedTable(g, seats, current, i, bet, needToCall);
    }

    /** Marks the player, and says what is left of the decision to take. */
    method MarkActed(i: nat, ghost action: Action, ghost amount: int) returns (needToCall: int)
      requires AllDifferent(players) && i < |players|
      modifies this, players
      ensures players == old(players)
      ensures AfterMark(View(), i, action, amount, needToCall) == Tables.ApplyDecision(old(View()), i, action, amount)
    {
      ghost var t := View();
      needToCall := game.currentBet - players[i].roundBet;
      MarkActedAt(players, i);
      assert View() == Marked(t, i);
      DecisionAfterMark(t, i, action, amount);
    }

    method ApplyDecision(i: nat, action: Action, amount: int)
      requires AllDifferent(players) && i < |players|
      modifies this, players
      ensures players == old(players)
      ensures View() == Tables.ApplyDecision(old(View()), i, action, amount)
    {
      var needToCall := MarkActed(i, action, amount);
      TakeDecision(i, action, amount, needToCall);
    }

    method TakeDecision(i: nat, action: Action, amount: int, needToCall: int)
      requires AllDifferent(players) && i < |players|
      modifies this, players
      ensures players == old(players)
      ensures View() == AfterMark(old(View()), i, action, amount, needToCall)
    {
      match action
      case Fold =>
        FoldAt(players, i);
      case Check =>
      case Call =>
        PayIn(i, if amount <= 0 then needToCall else amount);
      case Raise =>
        var amt := CommitBet(i, if amount <= 0 then needToCall + game.lastRaise else amount, needToCall);
      case AllIn =>
        var amt := CommitBet(i, players[i].chips, needToCall);
      case Other =>
    }

    method PayIn(i: nat, amount: int)
      requires AllDifferent(players) && i < |players|
      modifies this, players
      ensures players == old(players)
      ensures View() == PaidIn(old(View()), i, amount)
    {
      var bet := BetAt(players, i, amount);
      game := game.(pot := game.pot + bet);
    }

    // ---- Rounds and turns ----

    method IsBettingRoundComplete() returns (yes: bool)
      ensures yes <==> Tables.IsBettingRoundComplete(View())
    {
      var activeCount := CountNotFolded(players);
      if activeCount <= 1 {
        return true;
      }
      for k := 0 to |players|
        invariant forall j :: 0 <= j < k ==> !Owes(View().seats[j], game.currentBet)
      {
        if !players[k].folded && !players[k].allIn {
          if !players[k].hasActed || players[k].roundBet < game.currentBet {
            assert Owes(View().seats[k], game.currentBet);
            return false;
          }
        }
      }
      var actionableCount := CountCanAct(players);
      var settled := AllInSettled(players);
      if actionableCount <= 1 && settled {
        return true;
      }
      return actionableCount > 0;
    }

    method FindNextActionablePlayer()
      modifies this`current
      ensures View() == FindNextActionable(old(View()))
    {
      var n := |players|;
      if n == 0 {
        return;
      }
      for i := 0 to n
        invariant current == old(current)
        invariant NextActionable(View().seats, current + i, n - i, current)
            == NextActionable(View().seats, current, n, current)
      {
        var idx := (current + i) % n;
        if !players[idx].folded && !players[idx].allIn {
          current := idx;
          return;
        }
      }
    }

    method DealCommunityCards(count: nat)
      modifies this`game
      ensures View() == DealCommunity(old(View()), count)
    {
      var i := 0;
      ghost var deck, board := game.deck, game.community;
      while i < count && |game.deck| > 0
        invariant i <= count && i <= |deck|
        invariant game == old(game).(deck := deck[i..], community := board + deck[..i])
      {
        var card := game.deck[0];
        game := game.(deck := game.deck[1..], community := game.community + [card]);
        i := i + 1;
      }
    }

    // ---- Showdown ----

    method ResolveSidePots(pots: seq<SidePot>)
      requires AllDifferent(players) && PotsOn(pots, View().seats) && Contestable(View().seats, game.community)
      modifies this, players
      ensures players == old(players)
      ensures View() == PaidOut(old(View()), SettlePots(Settled(old(View()).seats, []), pots, 0, old(game).community))
    {
      var paid := SettleAll(players, pots, game.community);
      game := game.(payouts := paid, intermission := true, gameStarted := false, pot := 0);
    }

    method DoShowdown()
      requires AllDifferent(players) && (CountLive(View().seats) >= 2 ==> Contestable(View().seats, game.community))
      modifies this, players
      ensures players == old(players)
      ensures View() == Showdown(old(View()))
    {
      ghost var t := View();
      ShowdownCases(t);
      ClearRoundBets(players);
      var activeCount := CountNotFolded(players);
      if activeCount == 1 {
        TakePot();
      } else {
        SharePots();
      }
    }

    /** Side pots from everyone who bet, each to its own winners. */
    method SharePots()
      requires AllDifferent(players) && Contestable(View().seats, game.community)
      modifies this, players
      ensures players == old(players)
      ensures var t := old(View());
        View() == PaidOut(t, SettlePots(Settled(t.seats, []), PotsOf(t.seats), 0, t.community))
    {
      var contributors := ListContributors(players);
      ContributorsDistinct(Snaps(players), 0);
      var pots := BuildPots(contributors, Snaps(players));
      ResolveSidePots(pots);
    }

    /** Everyone else folded: the last live player takes the pot without showing. */
    method TakePot()
      requires AllDifferent(players) && CountLive(View().seats) == 1
      modifies this, players
      ensures players == old(players)
      ensures var seats, sole := old(View()).seats, SoleSurvivor(old(View()).seats);
        sole < |seats| && View() == PaidOut(old(View()), LastStanding(seats, sole, old(game).pot))
    {
      ghost var seats := Snaps(players);
      var w := FirstLive(players);
      SomeoneLive(seats);
      CreditAt(players, w, game.pot);
      assert players[w].name == seats[w].name;
      game := game.(payouts := [Payout(0, players[w].name, game.pot)], intermission := true, gameStarted := false,
          pot := 0);
    }

    // ---- Streets ----

    method OpenRound()
      requires AllDifferent(players)
      modifies this, players
      ensures players == old(players)
      ensures View() == Betting.OpenRound(old(View()))
    {
      SetHasActed(players);
      if game.phaseIndex > 0 {
        game := game.(currentBet := 0, lastRaise := game.bigBlind);
        ClearRoundBets(players);
      }
    }

    method FirstSeat() returns (ix: nat)
      requires players != []
      ensures ix == FirstToAct(View())
    {
      if game.phaseIndex == 0 {
        if |players| == 2 {
          ix := FindDealer(players);
        } else {
          ix := FindBigBlind(players);
          ix := (ix + 1) % |players|;
        }
      } else {
        ix := FindDealer(players);
        ix := (ix + 1) % |players|;
      }
    }

    method StartBettingRound()
      requires AllDifferent(players) && 0 <= game.phaseIndex && CardsDealt(View())
      modifies this, players
      ensures players == old(players)
      ensures View() == Betting.StartBettingRound(old(View()))
      decreases StreetsLeft(View()), 3
    {
      ghost var t := View();
      RoundCases(t);
      if game.phaseIndex >= SHOWDOWN {
        BoardReady(t);
        DoShowdown();
      } else {
        OpenRoundCards(t);
        OpenRound();
        EnterRound();
      }
    }

    /** Skips the round when fewer than two can still bet. */
    method EnterRound()
      requires AllDifferent(players) && 0 <= game.phaseIndex && CardsDealt(View())
      modifies this, players
      ensures players == old(players)
      ensures View() == RoundEntered(old(View()))
      decreases StreetsLeft(View()), 2
    {
      var activeCount := CountNotFolded(players);
      if activeCount <= 1 {
        DoShowdown();
        return;
      }
      var actionable := CountCanAct(players);
      var settled := AllInSettled(players);
      if actionable <= 1 && settled {
        AdvancePhase();
      } else if |players| > 0 {
        WaitForFirst();
      }
    }

    method WaitForFirst()
      requires players != []
      modifies this
      ensures players == old(players)
      ensures View() == FirstFound(old(View()))
    {
      var ix := FirstSeat();
      ghost var ready := View();
      game := game.(raisesThisRound := 0);
      current := ix;
      assert View() == ready.(raisesThisRound := 0, current := ix);
      FindNextActionablePlayer();
    }

    method AdvancePhase()
      requires AllDifferent(players) && 0 <= game.phaseIndex && CardsDealt(View())
      modifies this, players
      ensures players == old(players)
      ensures View() == Betting.AdvancePhase(old(View()))
      decreases StreetsLeft(View()), 1
    {
      ghost var t := View();
      PhaseCases(t);
      var activeCount := CountNotFolded(players);
      if activeCount <= 1 {
        DoShowdown();
      } else {
        NextStreet();
      }
    }

    method NextStreet()
      requires AllDifferent(players) && 0 <= game.phaseIndex && CardsDealt(View())
      modifies this, players
      ensures players == old(players)
      ensures View() == StreetEntered(old(View()))
      decreases StreetsLeft(View()), 0
    {
      if game.phaseIndex + 1 >= SHOWDOWN {
        LastStreetCards(View());
        CloseLastStreet();
      } else {
        StreetCardsDealt(View());
        DealStreet();
        StartBettingRound();
      }
    }

    method CloseLastStreet()
      requires AllDifferent(players) && Contestable(View().seats, game.community)
      modifies this, players
      ensures players == old(players)
      ensures View() == Showdown(old(View()).(phaseIndex := old(game).phaseIndex + 1))
    {
      game := game.(phaseIndex := game.phaseIndex + 1);
      DoShowdown();
    }

    method DealStreet()
      requires 0 <= game.phaseIndex < SHOWDOWN - 1
      modifies this`game
      ensures View() == StreetDealtOut(old(View()))
    {
      game := game.(phaseIndex := game.phaseIndex + 1);
      DealCommunityCards(BoardCards(game.phaseIndex));
    }

    // ---- Turns ----

    method MoveOn()
      modifies this`current
      ensures View() == MovedOn(old(View()))
    {
      current := current + 1;
      FindNextActionablePlayer();
    }

    method PassTurn()
      requires AllDifferent(players) && 0 <= game.phaseIndex && CardsDealt(View())
      modifies this, players
      ensures players == old(players)
      ensures View() == Betting.PassTurn(old(View()))
    {
      PassCases(View());
      var complete := IsBettingRoundComplete();
      if complete {
        AdvancePhase();
      } else {
        MoveOn();
      }
    }

    method ProcessBotAction(bot: Decision)
      requires AllDifferent(players) && players != [] && 0 <= game.phaseIndex && CardsDealt(View())
      modifies this, players
      ensures players == old(players)
      ensures View() == Act(old(View()), bot)
    {
      DecisionCards(View(), Seated(View()), bot.action, bot.amount);
      ApplyDecision(current % |players|, bot.action, bot.amount);
      PassTurn();
    }

    method ProcessCurrentPlayer(bot: Decision)
      requires AllDifferent(players) && 0 <= game.phaseIndex && CardsDealt(View())
      modifies this, players
      ensures players == old(players)
      ensures View() == ProcessCurrent(old(View()), bot)
    {
      ProcessCases(View(), bot);
      if game.gameFinished || game.intermission || |players| == 0 {
        return;
      }
      SkippedCards(View());
      SkipIdle();
      var botToAct := IsBotToAct();
      if botToAct {
        ProcessBotAction(bot);
      }
    }

    method IsBotToAct() returns (yes: bool)
      requires players != []
      ensures yes == BotToAct(View())
    {
      var player := players[current % |players|];
      return player.isBot && !player.folded && !player.allIn;
    }

    /** Moves on from a seat that cannot act. */
    method SkipIdle()
      requires players != []
      modifies this`current
      ensures View() == Skipped(old(View()))
    {
      var player := players[current % |players|];
      if player.folded || player.allIn {
        MoveOn();
      }
    }

    /** The accepted decision, and the reply of a bot that is next. */
    method TakeTurn(i: nat, action: Action, amount: int, bot: Decision)
      requires AllDifferent(players) && i < |players| && 0 <= game.phaseIndex && CardsDealt(View())
      modifies this, players
      ensures players == old(players)
      ensures View() == AfterDecision(Tables.ApplyDecision(old(View()), i, action, amount), bot)
    {
      DecisionCards(View(), i, action, amount);
      ApplyDecision(i, action, amount);
      FollowUp(bot);
    }

    method FollowUp(bot: Decision)
      requires AllDifferent(players) && 0 <= game.phaseIndex && CardsDealt(View())
      modifies this, players
      ensures players == old(players)
      ensures View() == AfterDecision(old(View()), bot)
    {
      AfterCases(View(), bot);
      var complete := IsBettingRoundComplete();
      if complete {
        AdvancePhase();
      } else {
        Reply(bot);
      }
    }

    method Reply(bot: Decision)
      requires AllDifferent(players) && 0 <= game.phaseIndex && CardsDealt(View())
      modifies this, players
      ensures players == old(players)
      ensures View() == ProcessCurrent(MovedOn(old(View())), bot)
    {
      MovedOnCards(View());
      MoveOn();
      ProcessCurrentPlayer(bot);
    }

    method IsLegal(i: nat, action: Action) returns (yes: bool)
      requires i < |players|
      ensures yes == Legal(View(), i, action)
    {
      match action
      case Fold => yes := true;
      case Call => yes := true;
      case Raise => yes := true;
      case AllIn => yes := true;
      case Check => yes := players[i].roundBet >= game.currentBet;
      case Other => yes := false;
    }

    method Request(name: string, action: Action, amount: int, bot: Decision) returns (ok: bool)
      requires AllDifferent(players) && 0 <= game.phaseIndex && CardsDealt(View())
      modifies this, players
      ensures players == old(players)
      ensures (View(), ok) == Betting.Request(old(View()), name, action, amount, bot)
    {
      var ix := FindPlayer(players, name);
      if ix == |players| || players[ix].allIn {
        return false;
      }
      if current % |players| != ix {
        return false;
      }
      var legal := IsLegal(ix, action);
      if !legal {
        return false;
      }
      TakeTurn(ix, action, amount, bot);
      return true;
    }

    method HumanAction(name: string, action: string, amount: int, bot: Decision) returns (ok: bool)
      requires AllDifferent(players) && 0 <= game.phaseIndex && CardsDealt(View())
      modifies this, players
      ensures players == old(players)
      ensures (View(), ok) == Betting.HumanAction(old(View()), name, action, amount, bot)
    {
      ok := Request(name, ActionOf(action), amount, bot);
    }

    // ---- Starting a hand ----

    method PostBlinds(sb: nat, bb: nat)
      requires AllDifferent(players) && sb < |players| && bb < |players|
      modifies this, players
      ensures players == old(players)
      ensures View() == Betting.PostBlinds(old(View()), sb, bb)
    {
      PostedTable(game, Snaps(players), current, sb, bb);
      var pot := BlindsAt(players, sb, bb, game.smallBlind, game.bigBlind);
      game := game.(pot := pot, currentBet := game.bigBlind, lastRaise := game.bigBlind);
    }

    method SeatButtons(orbit: nat, d: nat, sb: nat, bb: nat)
      requires AllDifferent(players) && d < |players| && sb < |players| && bb < |players|
      modifies this, players
      ensures players == old(players)
      ensures View() == Buttoned(old(View()), d, sb, bb, orbit)
    {
      GiveButtons(players, d, sb, bb);
      game := game.(dealerOrbitCount := orbit);
    }

    method RotateDealerAndBlinds()
      requires AllDifferent(players)
      modifies this, players
      ensures players == old(players)
      ensures View() == Betting.RotateDealerAndBlinds(old(View()))
    {
      var few, orbit, d, sb, bb := NextButton();
      if few {
        ClearButtons(players);
      } else {
        MoveButton(orbit, d, sb, bb);
      }
    }

    method NextButton() returns (few: bool, orbit: nat, d: nat, sb: nat, bb: nat)
      ensures few ==> Betting.RotateDealerAndBlinds(View()) == View().(seats := NoButtons(View().seats))
      ensures !few ==>
        && d < |players| && sb < |players| && bb < |players|
        && Betting.RotateDealerAndBlinds(View()) == Betting.PostBlinds(Buttoned(View(), d, sb, bb, orbit), sb, bb)
    {
      RotateCases(View());
      var dealt := ListDealtIn(players);
      few, orbit, d, sb, bb := |dealt| < 2, 0, 0, 0, 0;
      if !few {
        orbit, d, sb, bb := SeatsOfOrbit(dealt, game.dealerOrbitCount);
      }
    }

    method MoveButton(orbit: nat, d: nat, sb: nat, bb: nat)
      requires AllDifferent(players) && d < |players| && sb < |players| && bb < |players|
      modifies this, players
      ensures players == old(players)
      ensures View() == Betting.PostBlinds(Buttoned(old(View()), d, sb, bb, orbit), sb, bb)
    {
      SeatButtons(orbit, d, sb, bb);
      PostBlinds(sb, bb);
    }

    method DealHand(i: nat)
      requires AllDifferent(players) && i < |players| && |game.deck| >= 2
      modifies this`game, players[i]
      ensures View() == HandDealt(old(View()), i)
    {
      DealTo(players, i, game.deck[0], game.deck[1]);
      game := game.(deck := game.deck[2..]);
    }

    method DealHoleCards()
      requires AllDifferent(players)
      modifies this, players
      ensures players == old(players)
      ensures View() == Betting.DealHoleCards(old(View()), 0)
    {
      ghost var dealt := Betting.DealHoleCards(View(), 0);
      for i := 0 to |players|
        invariant players == old(players)
        invariant Betting.DealHoleCards(View(), i) == dealt
      {
        DealStep(View(), i);
        assert View().seats[i].folded == players[i].folded && View().deck == game.deck;
        if !players[i].folded && |game.deck| >= 2 {
          DealHand(i);
        }
      }
    }

    /** Resets the seats, drops bots without chips, and reshuffles when the deck cannot cover the hand. */
    method Prepare(shuffled: seq<string>)
      requires AllDifferent(players)
      modifies this, players
      ensures AllDifferent(players) && forall i :: 0 <= i < |players| ==> players[i] in old(players)
      ensures View() == BeforeDeal(old(View()), shuffled)
    {
      players := NextPlayers(players);
      game := FreshGame(game, |players|, shuffled);
    }

    method StartHand(shuffled: seq<string>) returns (ok: bool)
      requires AllDifferent(players) && |players| <= MOST_SEATS && Ready(View()) && Shuffled(shuffled)
      modifies this, players
      ensures AllDifferent(players) && forall i :: 0 <= i < |players| ==> players[i] in old(players)
      ensures (View(), ok) == Betting.StartHand(old(View()), shuffled)
    {
      var few := TooFew(shuffled);
      if few {
        return false;
      }
      DealIn(shuffled);
      StartBettingRound();
      return true;
    }

    /** Whether fewer than two players take part, and what starting a hand comes to. */
    method TooFew(ghost shuffled: seq<string>) returns (few: bool)
      requires Waiting(View())
      ensures few <==> |DealtInFrom(View().seats, 0)| < 2
      ensures few ==> Betting.StartHand(View(), shuffled) == (View(), false)
      ensures !few ==> Betting.StartHand(View(), shuffled) == (Betting.StartBettingRound(Dealt(View(), shuffled)), true)
    {
      StartCases(View(), shuffled);
      var dealt := ListDealtIn(players);
      few := |dealt| < 2;
    }

    /** Everything up to the first betting round. */
    method DealIn(shuffled: seq<string>)
      requires AllDifferent(players) && |players| <= MOST_SEATS && Ready(View()) && Shuffled(shuffled)
      requires |DealtInFrom(View().seats, 0)| >= 2
      modifies this, players
      ensures AllDifferent(players) && forall i :: 0 <= i < |players| ==> players[i] in old(players)
      ensures View() == Dealt(old(View()), shuffled) && CardsDealt(View()) && game.phaseIndex == 0
    {
      DealtReadyCards(View(), shuffled);
      Prepare(shuffled);
      RotateDealerAndBlinds();
      DealHoleCards();
    }

    method AdvanceOneStep(shuffled: seq<string>, bot: Decision) returns (moved: bool)
      requires AllDifferent(players) && Shuffled(shuffled)
      requires !game.gameFinished && !game.intermission ==>
        if game.gameStarted then 0 <= game.phaseIndex && CardsDealt(View())
        else |players| <= MOST_SEATS && Ready(View())
      modifies this, players
      ensures AllDifferent(players) && forall i :: 0 <= i < |players| ==> players[i] in old(players)
      ensures (View(), moved) == Betting.AdvanceOneStep(old(View()), shuffled, bot)
    {
      if game.gameFinished || game.intermission {
        return false;
      }
      if !game.gameStarted {
        var ok := StartHand(shuffled);
        return true;
      }
      var complete := IsBettingRoundComplete();
      if complete {
        AdvancePhase();
      } else {
        ProcessCurrentPlayer(bot);
      }
      return true;
    }
  }
}
