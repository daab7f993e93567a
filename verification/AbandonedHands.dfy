/** Hands that somebody may have left in the middle: what holds of them all the same. The leaver's bets stay in the pot
    and are nobody's, so the pot holds at least the bets of those who are left. */
module AbandonedHands {
  import opened Tables
  import opened SidePots
  import opened SidePotProofs
  import opened Showdowns
  import opened ShowdownProofs
  import opened Betting
  import opened BettingInvariants
  import opened HandProgress
  import opened HandStart
  import opened Sessions
  import opened Commissions

  /** The same people in the same seats. */
  ghost predicate SameSeating(a: seq<Seat>, b: seq<Seat>) {
    |a| == |b| && forall k :: 0 <= k < |a| ==> b[k].name == a[k].name && b[k].isBot == a[k].isBot
  }

  lemma {:induction false} SeatingTrans(a: seq<Seat>, b: seq<Seat>, c: seq<Seat>)
    requires SameSeating(a, b) && SameSeating(b, c)
    ensures SameSeating(a, c)
  {
  }

  lemma {:induction false} SeatingNames(a: seq<Seat>, b: seq<Seat>)
    requires SameSeating(a, b) && UniqueNames(a)
    ensures UniqueNames(b)
  {
  }

  /** A seat's chips and bets, whoever sits there and whatever they have done. */
  predicate Staked(s: Seat) {
    s.chips >= 0 && 0 <= s.roundBet <= s.totalBet
  }

  /** The stakes of a hand in which the pot may hold more than the bets on the table. */
  ghost predicate Wagered(t: Table) {
    && (forall i :: 0 <= i < |t.seats| ==> Staked(t.seats[i]))
    && SumTotalBets(t.seats) <= t.pot && t.currentBet >= 0 && t.lastRaise >= 0 && t.bigBlind >= 0
    && t.gameStarted && !t.intermission
  }

  lemma {:induction false} PlayIsWagered(t: Table)
    requires InPlay(t)
    ensures Wagered(t)
  {
    forall i | 0 <= i < |t.seats| ensures Staked(t.seats[i]) {
      assert SeatOk(t.seats[i]);
    }
  }

  /** `u` comes after `t` in the same hand: the same people, the same rules and the same money. */
  ghost predicate Follows(t: Table, u: Table) {
    && SameSeating(t.seats, u.seats) && Money(u) == Money(t)
    && u.smallBlind == t.smallBlind && u.bigBlind == t.bigBlind && u.gameFinished == t.gameFinished
  }

  /** The hand goes on from `t` at `u`. */
  ghost predicate Carries(t: Table, u: Table) {
    Follows(t, u) && Wagered(u)
  }

  /** The hand of `t` goes into the showdown of `u`. */
  ghost predicate Closes(t: Table, u: Table) {
    && Follows(t, u) && StacksFit(u.seats) && BetsFit(u.seats) && SumTotalBets(u.seats) <= u.pot
  }

  /** Where a hand stands: it goes on, or is over. */
  ghost predicate Reaches(t: Table, r: Table) {
    Carries(t, r) || exists u :: r == Showdown(u) && Closes(t, u)
  }

  lemma {:induction false} CarriesTrans(t: Table, u: Table, v: Table)
    requires Follows(t, u) && Carries(u, v)
    ensures Carries(t, v)
  {
    SeatingTrans(t.seats, u.seats, v.seats);
  }

  lemma {:induction false} ReachesTrans(t: Table, u: Table, r: Table)
    requires Follows(t, u) && Reaches(u, r)
    ensures Reaches(t, r)
  {
    if Carries(u, r) {
      CarriesTrans(t, u, r);
    } else {
      var v :| r == Showdown(v) && Closes(u, v);
      SeatingTrans(t.seats, u.seats, v.seats);
      assert Closes(t, v);
    }
  }

  lemma {:induction false} ShowsDown(t: Table, u: Table)
    requires Carries(t, u)
    ensures Reaches(t, Showdown(u))
  {
    forall i | 0 <= i < |u.seats| ensures u.seats[i].chips >= 0 && u.seats[i].totalBet >= 0 {
      assert Staked(u.seats[i]);
    }
    assert Closes(t, u);
  }

  /** A hand that settles in the strict sense closes. */
  lemma {:induction false} SettlingCloses(t: Table, u: Table)
    requires Settles(t, u)
    ensures Closes(t, u)
  {
    forall k | 0 <= k < |t.seats| ensures u.seats[k].name == t.seats[k].name && u.seats[k].isBot == t.seats[k].isBot {
      assert PersonAt(u.seats[k]) == PersonAt(t.seats[k]);
    }
  }

  // ---- Streets ----

  lemma {:induction false} RoundOpened(t: Table)
    requires Wagered(t)
    ensures Carries(t, OpenRound(t))
  {
    var u := OpenRound(t);
    forall i | 0 <= i < |u.seats| ensures Staked(u.seats[i]) {
      assert Staked(t.seats[i]);
    }
    SameStacks(t.seats, u.seats, 0);
  }

  /** From any hand, however it was left, the streets lead on to a player's turn or to the showdown. */
  lemma {:induction false} RoundReaches(t: Table)
    requires Wagered(t)
    ensures Reaches(t, StartBettingRound(t))
    decreases StreetsLeft(t), 2
  {
    if t.phaseIndex >= SHOWDOWN {
      ShowsDown(t, t);
    } else {
      RoundOpened(t);
      OpenReaches(OpenRound(t));
      ReachesTrans(t, OpenRound(t), StartBettingRound(t));
    }
  }

  lemma {:induction false} OpenReaches(ready: Table)
    requires Wagered(ready)
    ensures Reaches(ready, RoundEntered(ready))
    decreases StreetsLeft(ready), 1
  {
    if CountLive(ready.seats) <= 1 {
      ShowsDown(ready, ready);
    } else if CountActionable(ready.seats) <= 1 && IsAllInSettled(ready.seats) {
      StreetReaches(ready);
    } else {
      assert Carries(ready, RoundEntered(ready));
    }
  }

  lemma {:induction false} StreetReaches(t: Table)
    requires Wagered(t)
    ensures Reaches(t, AdvancePhase(t))
    decreases StreetsLeft(t), 0
  {
    var next := t.(phaseIndex := t.phaseIndex + 1);
    if CountLive(t.seats) <= 1 {
      ShowsDown(t, t);
    } else if next.phaseIndex >= SHOWDOWN {
      ShowsDown(t, next);
    } else {
      var dealt := DealCommunity(next, BoardCards(next.phaseIndex));
      RoundReaches(dealt);
      ReachesTrans(t, dealt, StartBettingRound(dealt));
    }
  }

  // ---- Decisions ----

  lemma {:induction false} SeatReplaced(t: Table, i: nat, s: Seat, pot: int)
    requires Wagered(t) && i < |t.seats| && Staked(s) && s.name == t.seats[i].name && s.isBot == t.seats[i].isBot
    requires s.chips + s.totalBet == t.seats[i].chips + t.seats[i].totalBet
    requires pot - t.pot == s.totalBet - t.seats[i].totalBet
    ensures Carries(t, t.(seats := t.seats[i := s], pot := pot))
  {
    SumUpdate(t.seats, i, s);
  }

  /** Any bet that leaves a bet of nothing or more. */
  lemma {:induction false} BetPlaced(t: Table, i: nat, bet: int)
    requires Wagered(t) && i < |t.seats| && t.seats[i].roundBet + bet >= 0
    ensures Carries(t, t.(seats := t.seats[i := PlaceBet(t.seats[i], bet)], pot := t.pot + BetSize(t.seats[i], bet)))
  {
    assert Staked(t.seats[i]);
    SeatReplaced(t, i, PlaceBet(t.seats[i], bet), t.pot + BetSize(t.seats[i], bet));
  }

  lemma {:induction false} BetCommitted(t: Table, i: nat, bet: int)
    requires Wagered(t) && i < |t.seats| && t.seats[i].roundBet + bet >= 0
    ensures Carries(t, CommitBet(t, i, bet, t.currentBet - t.seats[i].roundBet))
  {
    var amt, need := BetSize(t.seats[i], bet), t.currentBet - t.seats[i].roundBet;
    BetPlaced(t, i, bet);
    if amt > need {
      var placed := t.(seats := t.seats[i := PlaceBet(t.seats[i], bet)], pot := t.pot + amt);
      var u := CommitBet(t, i, bet, need);
      ReopenKeeps(placed.seats, t.seats[i].name);
      SameStacks(placed.seats, u.seats, 0);
      forall k | 0 <= k < |u.seats| ensures Staked(u.seats[k]) {
        assert Staked(placed.seats[k]);
      }
    }
  }

  lemma {:induction false} MarkCarries(t: Table, i: nat)
    requires Wagered(t) && i < |t.seats|
    ensures Carries(t, Marked(t, i))
  {
    assert Staked(t.seats[i]);
    SeatReplaced(t, i, t.seats[i].(hasActed := true), t.pot);
  }

  lemma {:induction false} FoldCarries(t: Table, i: nat, amount: int)
    requires Wagered(t) && i < |t.seats|
    ensures Carries(t, ApplyDecision(t, i, Fold, amount))
  {
    var marked := Marked(t, i);
    MarkCarries(t, i);
    var s := marked.seats[i].(folded := true);
    assert Staked(t.seats[i]);
    SeatReplaced(marked, i, s, t.pot);
    CarriesTrans(t, marked, marked.(seats := marked.seats[i := s], pot := t.pot));
  }

  lemma {:induction false} CallCarries(t: Table, i: nat, amount: int)
    requires Wagered(t) && i < |t.seats|
    ensures Carries(t, ApplyDecision(t, i, Call, amount))
  {
    var marked := Marked(t, i);
    var bet := if amount <= 0 then t.currentBet - t.seats[i].roundBet else amount;
    MarkCarries(t, i);
    assert Staked(t.seats[i]);
    BetPlaced(marked, i, bet);
    var u := marked.(seats := marked.seats[i := PlaceBet(marked.seats[i], bet)],
                       pot := t.pot + BetSize(t.seats[i], bet));
    CarriesTrans(t, marked, u);
    assert u == ApplyDecision(t, i, Call, amount);
  }

  lemma {:induction false} CommitCarries(t: Table, i: nat, bet: int)
    requires Wagered(t) && i < |t.seats| && t.seats[i].roundBet + bet >= 0
    ensures Carries(t, CommitBet(Marked(t, i), i, bet, t.currentBet - t.seats[i].roundBet))
  {
    var marked := Marked(t, i);
    MarkCarries(t, i);
    BetCommitted(marked, i, bet);
    CarriesTrans(t, marked, CommitBet(marked, i, bet, t.currentBet - t.seats[i].roundBet));
  }

  lemma {:induction false} RaiseCarries(t: Table, i: nat, action: Action, amount: int)
    requires Wagered(t) && i < |t.seats| && (action == Raise || action == AllIn)
    ensures Carries(t, ApplyDecision(t, i, action, amount))
  {
    assert Staked(t.seats[i]);
    RaiseCommits(t, i, action, amount);
    CommitCarries(t, i, BetOf(t, i, action, amount));
  }

  /** Any action with any amount, from any seat. */
  lemma {:induction false} DecisionCarries(t: Table, i: nat, action: Action, amount: int)
    requires Wagered(t) && i < |t.seats|
    ensures Carries(t, ApplyDecision(t, i, action, amount))
  {
    match action
    case Fold => FoldCarries(t, i, amount);
    case Check => MarkCarries(t, i);
    case Other => MarkCarries(t, i);
    case Call => CallCarries(t, i, amount);
    case Raise => RaiseCarries(t, i, Raise, amount);
    case AllIn => RaiseCarries(t, i, AllIn, amount);
  }

  lemma {:induction false} TurnReaches(t: Table, bot: Decision)
    requires Wagered(t) && forall k :: 0 <= k < |t.seats| ==> !t.seats[k].isBot
    ensures Reaches(t, AfterDecision(t, bot))
  {
    if IsBettingRoundComplete(t) {
      StreetReaches(t);
    } else {
      assert Carries(t, AfterDecision(t, bot));
    }
  }

  /** Whatever anybody asks for, the hand goes on with the same people and the same money, or is over. */
  lemma {:induction false} RequestReaches(t: Table, name: string, action: string, amount: int, bot: Decision)
    requires Wagered(t) && forall k :: 0 <= k < |t.seats| ==> !t.seats[k].isBot
    ensures Reaches(t, HumanAction(t, name, action, amount, bot).0)
  {
    var ix := PlayerNamed(t.seats, name);
    if HumanAction(t, name, action, amount, bot).1 {
      var u := ApplyDecision(t, ix, ActionOf(action), amount);
      DecisionCarries(t, ix, ActionOf(action), amount);
      TurnReaches(u, bot);
      ReachesTrans(t, u, AfterDecision(u, bot));
    } else {
      assert Carries(t, t);
    }
  }

  // ---- The showdown ----

  /** The exact books of any showdown: the stacks hold all the money but what was nobody's, what no live player matched
      and the remainders of splits; no stack shrinks, and every award is covered. */
  lemma {:induction false} ClosedBalance(t: Table, u: Table)
    requires Closes(t, u) && UniqueNames(t.seats)
    ensures var r := Showdown(u);
      && SumChips(r.seats) == Money(t) - Lost(u) && Lost(u) >= 0
      && SameSeating(t.seats, r.seats) && StacksFit(r.seats) && Covered(r.seats, r.payouts)
  {
    var r := Showdown(u);
    SeatingNames(t.seats, u.seats);
    if CountLive(u.seats) == 1 {
      var p := LoneSurvivor(u.seats);
      SurvivorTakesPot(u, p);
    } else {
      ShowdownAccounting(u);
    }
    SameLength(u);
    forall p: nat | p < |u.seats| ensures r.seats[p].name == u.seats[p].name && r.seats[p].isBot == u.seats[p].isBot
      ensures r.seats[p].chips >= 0
    {
      ShowdownStack(u, p);
    }
    ShowdownCovered(u);
  }

  // ---- Whose turn it is ----

  /** The turn is with somebody who can act. */
  predicate Awaits(t: Table) {
    t.seats != [] && Actionable(t.seats[Seated(t)])
  }

  /** Some request is accepted exactly if the turn is with somebody who can act. */
  lemma {:induction false} AnswersSomebody(t: Table, bot: Decision)
    requires UniqueNames(t.seats)
    ensures Awaits(t) <==> exists name, action, amount :: HumanAction(t, name, action, amount, bot).1
  {
    if Awaits(t) {
      var name := t.seats[Seated(t)].name;
      HumanActionGate(t, name, "fold", 0, bot);
      assert HumanAction(t, name, "fold", 0, bot).1;
    }
    if name, action, amount :| HumanAction(t, name, action, amount, bot).1 {
      HumanActionGate(t, name, action, amount, bot);
    }
  }

  /** Three players, the first of whom has folded, and the turn with the last. */
  function ThreeHanded(): Table {
    var a := Seat("a", false, 90, 10, 10, true, false, true, true, false, false, false, CARD_BACKS);
    var b := Seat("b", false, 90, 10, 10, false, false, true, false, true, false, false, CARD_BACKS);
    var c := Seat("c", false, 90, 10, 10, false, false, false, false, false, true, false, CARD_BACKS);
    Table([a, b, c], 2, 30, 10, 10, 0, 0, 5, 10, 0, true, false, false, [], [], [])
  }

  lemma {:induction false} ThreeHandedPlays()
    ensures InPlay(ThreeHanded())
  {
    var t := ThreeHanded();
    var a, b, c := t.seats[0], t.seats[1], t.seats[2];
    assert t.seats[1..] == [b, c] && [b, c][1..] == [c] && [c][1..] == [];
    assert SumTotalBets([c]) == 10 && SumTotalBets([b, c]) == 20 && SumTotalBets(t.seats) == 30;
    assert SumChips([c]) == 90 && SumChips([b, c]) == 180 && SumChips(t.seats) == 270;
    assert CountLive([c]) == 1 && CountLive([b, c]) == 2 && CountLive(t.seats) == 2;
    assert Owes(c, t.currentBet) && Actionable(c);
  }

  /** When the player to act gets up, the turn can fall to one who has folded: a hand in play becomes a table at which
      nobody's request is accepted. */
  lemma {:induction false} LeaverStalls(bot: Decision)
    ensures var t := ThreeHanded();
      var left := t.(seats := t.seats[..2]);
      && InPlay(t) && UniqueNames(left.seats) && left.gameStarted
      && forall name, action, amount :: !HumanAction(left, name, action, amount, bot).1
  {
    var t := ThreeHanded();
    var left := t.(seats := t.seats[..2]);
    ThreeHandedPlays();
    assert left.seats == [t.seats[0], t.seats[1]];
    AnswersSomebody(left, bot);
  }
}
