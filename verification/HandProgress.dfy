/** Every hand ends: turns always find a player, streets always advance, and a rank falls with each action. */
module HandProgress {
  import opened Arithmetic
  import opened Tables
  import opened SidePots
  import opened SidePotProofs
  import opened Showdowns
  import opened ShowdownProofs
  import opened Betting
  import opened BettingInvariants
  import opened Dealing

  // ---- The turn pointer ----

  /** Every position comes up within one turn around the table. */
  lemma {:induction false} ComesUp(from: nat, j: nat, n: nat) returns (k: nat)
    requires j < n
    ensures k < n && (from + k) % n == j
  {
    var r := from % n;
    k := if j >= r then j - r else j + n - r;
    ModTwice(from, k, n);
    if j >= r { ModIs(r + k, 0, j, n); } else { ModIs(r + k, 1, j, n); }
  }

  /** How many seats from `from` on the next one that owes is, if it is within `left` seats. */
  function Distance(seats: seq<Seat>, bet: int, from: nat, left: nat): nat
    requires seats != []
    decreases left
  {
    if left == 0 || Owes(seats[from % |seats|], bet) then 0 else 1 + Distance(seats, bet, from + 1, left - 1)
  }

  lemma {:induction false} DistanceBound(seats: seq<Seat>, bet: int, from: nat, left: nat)
    requires seats != []
    ensures Distance(seats, bet, from, left) <= left
    decreases left
  {
    if left > 0 {
      DistanceBound(seats, bet, from + 1, left - 1);
    }
  }

  /** Looking further does not find a nearer one. */
  lemma {:induction false} DistanceFound(seats: seq<Seat>, bet: int, from: nat, k: nat, left: nat, more: nat)
    requires seats != [] && k < left <= more && Owes(seats[(from + k) % |seats|], bet)
    ensures Distance(seats, bet, from, left) == Distance(seats, bet, from, more) <= k
    decreases left
  {
    if !Owes(seats[from % |seats|], bet) {
      DistanceFound(seats, bet, from + 1, k - 1, left - 1, more - 1);
    }
  }

  lemma {:induction false} DistanceWraps(seats: seq<Seat>, bet: int, from: nat, left: nat)
    requires seats != []
    ensures Distance(seats, bet, from % |seats|, left) == Distance(seats, bet, from, left)
    decreases left
  {
    ModTwice(from, 0, |seats|);
    if left > 0 {
      ModTwice(from, 1, |seats|);
      DistanceWraps(seats, bet, from % |seats| + 1, left - 1);
      DistanceWraps(seats, bet, from + 1, left - 1);
    }
  }

  /** The search lands on an actionable seat, and brings the next owing seat that much nearer. */
  lemma {:induction false} NextLands(seats: seq<Seat>, bet: int, from: nat, left: nat, k: nat, default: nat)
    requires seats != [] && k < left && Owes(seats[(from + k) % |seats|], bet)
    ensures var ix := NextActionable(seats, from, left, default);
      ix < |seats| && Actionable(seats[ix]) && Distance(seats, bet, ix, |seats|) <= Distance(seats, bet, from, left)
    decreases left
  {
    if Actionable(seats[from % |seats|]) {
      var ix := from % |seats|;
      DistanceWraps(seats, bet, from, |seats|);
      if left <= |seats| {
        DistanceFound(seats, bet, from, k, left, |seats|);
      } else {
        var j := ComesUp(from, (from + k) % |seats|, |seats|);
        DistanceFound(seats, bet, from, j, |seats|, left);
      }
    } else {
      NextLands(seats, bet, from + 1, left - 1, k - 1, default);
    }
  }

  lemma {:induction false} SomeoneOwes(t: Table) returns (j: nat)
    requires !IsBettingRoundComplete(t)
    ensures j < |t.seats| && Owes(t.seats[j], t.currentBet)
  {
    NobodyActionable(t.seats);
    j :| j < |t.seats| && Owes(t.seats[j], t.currentBet);
  }

  /** With no one able to act the bets count as settled, so an unfinished round has someone who owes. */
  lemma {:induction false} NobodyActionable(seats: seq<Seat>)
    ensures CountActionable(seats) == 0 ==> IsAllInSettled(seats)
  {
    CountsActionable(seats);
  }

  lemma {:induction false} CountsActionable(seats: seq<Seat>)
    ensures CountActionable(seats) == 0 <==> forall i :: 0 <= i < |seats| ==> !Actionable(seats[i])
  {
    if seats != [] {
      CountsActionable(seats[1..]);
      assert forall i :: 1 <= i < |seats| ==> seats[i] == seats[1..][i - 1];
    }
  }

  // ---- Streets ----

  /** The parts of the seats that dealing and new streets leave alone. */
  ghost predicate SameStakes(a: seq<Seat>, b: seq<Seat>) {
    |a| == |b|
    && forall j :: 0 <= j < |a| ==>
         && PersonAt(b[j]) == PersonAt(a[j]) && b[j].cards == a[j].cards && b[j].isDealer == a[j].isDealer
             && b[j].chips == a[j].chips
         && b[j].totalBet == a[j].totalBet && b[j].folded == a[j].folded
  }

  ghost predicate StacksFit(seats: seq<Seat>) {
    forall i :: 0 <= i < |seats| ==> seats[i].chips >= 0
  }

  /** `u` is a table on its way into the showdown from `t`: same stakes, and all streets dealt if anyone contests. */
  ghost predicate ToShowdown(t: Table, u: Table) {
    && SameStakes(t.seats, u.seats) && SameRules(t, u) && UniqueNames(u.seats) && BetsFit(u.seats) && StacksFit(u.seats)
    && u.pot == t.pot == SumTotalBets(u.seats)
    && (CountLive(u.seats) >= 2 ==> u.phaseIndex == SHOWDOWN)
    && (CardsDealt(t) ==> CardsDealt(u))
  }

  ghost predicate Ends(t: Table, r: Table) {
    exists u :: r == Showdown(u) && ToShowdown(t, u)
  }

  /** Play goes on at a table with the same stakes. */
  ghost predicate Continues(t: Table, r: Table) {
    && InPlay(r) && SameStakes(t.seats, r.seats) && r.pot == t.pot && SameRules(t, r)
    && (CardsDealt(t) ==> CardsDealt(r))
  }

  lemma {:induction false} SameStakesSums(a: seq<Seat>, b: seq<Seat>)
    requires SameStakes(a, b)
    ensures SumChips(a) == SumChips(b) && SumTotalBets(a) == SumTotalBets(b) && CountLive(a) == CountLive(b)
  {
    SameStacks(a, b, 0);
    SameLiveCount(a, b);
  }

  lemma {:induction false} OpenRoundKeeps(t: Table)
    requires Books(t)
    ensures var u := OpenRound(t);
      && Books(u) && SameStakes(t.seats, u.seats) && u.pot == t.pot && SameRules(t, u) && u.phaseIndex == t.phaseIndex
      && (CardsDealt(t) ==> CardsDealt(u))
      && forall j :: 0 <= j < |u.seats| ==> !u.seats[j].hasActed
  {
    OpenedSeats(t);
    SameStakesSums(t.seats, OpenRound(t).seats);
    SumsFit(t.seats);
    CardsCarry(t, OpenRound(t));
  }

  lemma {:induction false} OpenedSeats(t: Table)
    requires Books(t)
    ensures var u := OpenRound(t);
      && SameStakes(t.seats, u.seats) && UniqueNames(u.seats)
      && forall j :: 0 <= j < |u.seats| ==> SeatOk(u.seats[j]) && !u.seats[j].hasActed
  {
    var u := OpenRound(t);
    forall j | 0 <= j < |t.seats|
      ensures |u.seats| == |t.seats| && SeatOk(u.seats[j])
      ensures u.seats[j] == t.seats[j].(hasActed := false, roundBet := u.seats[j].roundBet)
    {
      assert SeatOk(t.seats[j]);
    }
  }

  lemma {:induction false} CardsCarry(t: Table, u: Table)
    requires SamePlayers(t.seats, u.seats) && u.deck == t.deck && u.community == t.community
    requires BoardSize(u.phaseIndex) == BoardSize(t.phaseIndex)
    ensures CardsDealt(t) ==> CardsDealt(u)
  {
    if CardsDealt(t) {
      SameCardsDealt(t, u);
    }
  }

  lemma {:induction false} EndsNow(t: Table, u: Table)
    requires Books(u) || (Books(u.(phaseIndex := SHOWDOWN - 1)) && u.phaseIndex == SHOWDOWN)
    requires SameStakes(t.seats, u.seats) && SameRules(t, u) && u.pot == t.pot && (CardsDealt(t) ==> CardsDealt(u))
    requires CountLive(u.seats) <= 1 || u.phaseIndex == SHOWDOWN
    ensures Ends(t, Showdown(u))
  {
    forall i | 0 <= i < |u.seats| ensures u.seats[i].totalBet >= 0 && u.seats[i].chips >= 0 {
      assert SeatOk(u.seats[i]);
    }
    assert ToShowdown(t, u);
  }

  /** A round with someone to act is in play once the pointer has found them. */
  lemma {:induction false} TurnFound(u: Table)
    requires Books(u) && !IsBettingRoundComplete(u)
    ensures var r := FindNextActionable(u);
      && InPlay(r) && r == u.(current := r.current)
      && Distance(r.seats, r.currentBet, r.current, |r.seats|) <= Distance(u.seats, u.currentBet, u.current, |u.seats|)
  {
    var j := SomeoneOwes(u);
    var k := ComesUp(u.current, j, |u.seats|);
    NextLands(u.seats, u.currentBet, u.current, |u.seats|, k, u.current);
    ModIs(FindNextActionable(u).current, 0, FindNextActionable(u).current, |u.seats|);
  }

  lemma {:induction false} RoundInPlay(ready: Table)
    requires Books(ready) && CountLive(ready.seats) > 1 && forall j :: 0 <= j < |ready.seats| ==>
      !ready.seats[j].hasActed
    requires !(CountActionable(ready.seats) <= 1 && IsAllInSettled(ready.seats))
    ensures Continues(ready, FindNextActionable(ready.(current := FirstToAct(ready))).(raisesThisRound := 0))
  {
    var u := ready.(current := FirstToAct(ready));
    FreshRoundUnfinished(u);
    TurnFound(u);
    var r := FindNextActionable(u);
    CardsCarry(ready, r);
    RaisesReset(ready, r);
  }

  lemma {:induction false} RaisesReset(ready: Table, r: Table)
    requires Continues(ready, r)
    ensures Continues(ready, r.(raisesThisRound := 0))
  {
    CardsCarry(r, r.(raisesThisRound := 0));
  }

  /** A freshly opened round that is not skipped has someone to act. */
  lemma {:induction false} FreshRoundUnfinished(u: Table)
    requires CountLive(u.seats) > 1 && forall j :: 0 <= j < |u.seats| ==> !u.seats[j].hasActed
    requires !(CountActionable(u.seats) <= 1 && IsAllInSettled(u.seats))
    ensures !IsBettingRoundComplete(u)
  {
    CountsActionable(u.seats);
    NobodyActionable(u.seats);
    var j :| 0 <= j < |u.seats| && Actionable(u.seats[j]);
    assert Owes(u.seats[j], u.currentBet);
  }

  lemma {:induction false} RoundOpens(t: Table)
    requires Books(t)
    ensures var r := StartBettingRound(t); Ends(t, r) || (Continues(t, r) && r.phaseIndex >= t.phaseIndex)
    decreases StreetsLeft(t), 1
  {
    var ready, r := OpenRound(t), StartBettingRound(t);
    OpenRoundKeeps(t);
    if CountLive(ready.seats) <= 1 {
      EndsNow(t, ready);
    } else if CountActionable(ready.seats) <= 1 && IsAllInSettled(ready.seats) {
      StreetAdvances(ready);
      EndsFrom(t, ready, r);
    } else {
      RoundInPlay(ready);
      EndsFrom(t, ready, r);
    }
  }

  lemma {:induction false} EndsFrom(t: Table, u: Table, r: Table)
    requires SameStakes(t.seats, u.seats) && u.pot == t.pot && SameRules(t, u)
    requires CardsDealt(t) ==> CardsDealt(u)
    ensures Ends(u, r) ==> Ends(t, r)
    ensures Continues(u, r) ==> Continues(t, r)
  {
    if Ends(u, r) {
      var v :| r == Showdown(v) && ToShowdown(u, v);
      assert ToShowdown(t, v);
    }
  }

  /** The turn pointer at the first player to act. */
  function FirstFound(ready: Table): Table
    requires ready.seats != []
  {
    FindNextActionable(ready.(current := FirstToAct(ready))).(raisesThisRound := 0)
  }

  function RoundEntered(ready: Table): Table {
    if CountLive(ready.seats) <= 1 then Showdown(ready)
    else if CountActionable(ready.seats) <= 1 && IsAllInSettled(ready.seats) then AdvancePhase(ready)
    else if ready.seats == [] then ready
    else FirstFound(ready)
  }

  /** Dealing the next street changes no stake and no card's place but the deck's and the board's. */
  lemma {:induction false} StreetKeeps(t: Table)
    requires Books(t) && t.phaseIndex + 1 < SHOWDOWN
    ensures var u := StreetDealtOut(t);
      && Books(u) && SameStakes(t.seats, u.seats) && u.pot == t.pot && SameRules(t, u)
      && u.phaseIndex == t.phaseIndex + 1 && (CardsDealt(t) ==> CardsDealt(u))
  {
    if CardsDealt(t) {
      StreetDealt(t);
    }
  }

  function StreetDealtOut(t: Table): Table {
    DealCommunity(t.(phaseIndex := t.phaseIndex + 1), BoardCards(t.phaseIndex + 1))
  }

  lemma {:induction false} AdvanceIs(t: Table)
    ensures AdvancePhase(t)
         == if CountLive(t.seats) <= 1 then Showdown(t)
            else if t.phaseIndex + 1 >= SHOWDOWN then Showdown(t.(phaseIndex := t.phaseIndex + 1))
            else StartBettingRound(StreetDealtOut(t))
  {
  }

  /** Closing a street leads to the showdown or to play on a later street. */
  lemma {:induction false} StreetAdvances(t: Table)
    requires Books(t)
    ensures var r := AdvancePhase(t); Ends(t, r) || (Continues(t, r) && r.phaseIndex > t.phaseIndex)
    decreases StreetsLeft(t), 0
  {
    AdvanceIs(t);
    if CountLive(t.seats) <= 1 {
      EndsNow(t, t);
    } else if t.phaseIndex + 1 >= SHOWDOWN {
      CardsCarry(t, t.(phaseIndex := t.phaseIndex + 1));
      EndsNow(t, t.(phaseIndex := t.phaseIndex + 1));
    } else {
      StreetKeeps(t);
      RoundOpens(StreetDealtOut(t));
      EndsFrom(t, StreetDealtOut(t), StartBettingRound(StreetDealtOut(t)));
    }
  }

  // ---- One action, and the rank that bounds a hand ----

  /** A lexicographic rank as one number: the digits are bounded by `bound`, `width` and `n`. */
  function RankOf(streets: int, room: int, owed: int, dist: int, bound: int, width: int, n: int): int {
    ((streets * (bound + 1) + room) * (width + 1) + owed) * (n + 1) + dist
  }

  /** Streets left, then room left to raise, then bets owed, then seats to the next player who owes. */
  function Rank(t: Table): int
    requires t.seats != []
  {
    RankOf(SHOWDOWN - t.phaseIndex, BetBound(t) - t.currentBet, TotalOwed(t.seats, t.currentBet),
           Distance(t.seats, t.currentBet, t.current, |t.seats|),
           BetBound(t), |t.seats| * (BetBound(t) + 1), |t.seats|)
  }

  /** Play goes on with the same players and the same money. */
  ghost predicate PlaysOn(t: Table, r: Table) {
    && InPlay(r) && SamePlayers(t.seats, r.seats) && Money(r) == Money(t) && SameRules(t, r)
    && (CardsDealt(t) ==> CardsDealt(r))
  }

  /** The hand is over: a showdown over the same money. */
  ghost predicate HandOver(t: Table, r: Table) {
    exists u :: r == Showdown(u) && Settles(t, u)
  }

  ghost predicate Settles(t: Table, u: Table) {
    && SamePlayers(t.seats, u.seats) && SameRules(t, u) && UniqueNames(u.seats) && BetsFit(u.seats)
        && StacksFit(u.seats)
    && Money(u) == Money(t) && u.pot == SumTotalBets(u.seats)
    && (CountLive(u.seats) >= 2 ==> u.phaseIndex == SHOWDOWN)
    && (CardsDealt(t) ==> CardsDealt(u))
  }

  /** The lexicographic descent, component by component. */
  ghost predicate Descends(t: Table, r: Table)
    requires t.seats != [] && r.seats != []
  {
    || r.phaseIndex > t.phaseIndex
    || (r.phaseIndex == t.phaseIndex
        && (|| r.currentBet > t.currentBet
            || (r.currentBet == t.currentBet
                && (|| TotalOwed(r.seats, r.currentBet) < TotalOwed(t.seats, t.currentBet)
                    || (TotalOwed(r.seats, r.currentBet) == TotalOwed(t.seats, t.currentBet)
                        && Distance(r.seats, r.currentBet, r.current, |r.seats|)
                           < Distance(t.seats, t.currentBet, t.current, |t.seats|))))))
  }

  lemma {:induction false} SameOwing(a: seq<Seat>, b: seq<Seat>, bet: int, from: nat, left: nat)
    requires |a| == |b| > 0 && forall j :: 0 <= j < |a| ==> Owes(a[j], bet) == Owes(b[j], bet)
    ensures Distance(a, bet, from, left) == Distance(b, bet, from, left)
    decreases left
  {
    if left > 0 {
      SameOwing(a, b, bet, from + 1, left - 1);
    }
  }

  /** From a seat that owes nothing, the next seat to act is nearer to one that does. */
  lemma {:induction false} StepNearer(seats: seq<Seat>, bet: int, c: nat, k: nat)
    requires seats != [] && k < |seats| && Owes(seats[(c + k) % |seats|], bet) && !Owes(seats[c % |seats|], bet)
    ensures var ix := NextActionable(seats, c + 1, |seats|, c + 1);
      ix < |seats| && Distance(seats, bet, ix, |seats|) < Distance(seats, bet, c, |seats|)
  {
    var n := |seats|;
    assert k > 0;
    assert c + 1 + (k - 1) == c + k;
    NextLands(seats, bet, c + 1, n - 1, k - 1, c + 1);
    NextSame(seats, c + 1, n - 1, k - 1, c + 1, bet);
  }

  /** When the decision changed nothing owed, passing the turn brings the next owing player nearer. */
  lemma {:induction false} TurnNearer(t: Table, u: Table)
    requires Books(u) && !IsBettingRoundComplete(u) && |t.seats| == |u.seats|
    requires u.current == t.current && u.currentBet == t.currentBet
    requires !Owes(t.seats[Seated(t)], t.currentBet)
    requires forall j :: 0 <= j < |t.seats| ==> Owes(t.seats[j], t.currentBet) == Owes(u.seats[j], u.currentBet)
    ensures var r := FindNextActionable(u.(current := u.current + 1));
      Distance(r.seats, r.currentBet, r.current, |r.seats|) < Distance(t.seats, t.currentBet, t.current, |t.seats|)
  {
    var j := SomeoneOwes(u);
    var k := ComesUp(t.current, j, |t.seats|);
    SameOwing(t.seats, u.seats, t.currentBet, t.current, |t.seats|);
    StepNearer(u.seats, t.currentBet, t.current, k);
  }

  lemma {:induction false} NextSame(seats: seq<Seat>, from: nat, left: nat, k: nat, default: nat, bet: int)
    requires seats != [] && k < left && Owes(seats[(from + k) % |seats|], bet)
    ensures NextActionable(seats, from, left, default) == NextActionable(seats, from, left + 1, default)
    decreases left
  {
    if !Actionable(seats[from % |seats|]) {
      NextSame(seats, from + 1, left - 1, k - 1, default, bet);
    }
  }

  /** The turn passes to someone who can act, and the round is nearer its end. */
  lemma {:induction false} TurnPasses(t: Table, u: Table)
    requires InPlay(t) && Books(u) && SameHand(t, u) && Progress(t, u, Seated(t))
    requires !IsBettingRoundComplete(u)
    ensures var r := FindNextActionable(u.(current := u.current + 1)); PlaysOn(t, r) && Descends(t, r)
  {
    TurnFound(u.(current := u.current + 1));
    CardsCarry(t, FindNextActionable(u.(current := u.current + 1)));
    if u.currentBet == t.currentBet && TotalOwed(u.seats, u.currentBet) == TotalOwed(t.seats, t.currentBet) {
      TurnNearer(t, u);
    }
  }

  lemma {:induction false} EndsSettles(t: Table, u: Table, r: Table)
    requires SameHand(t, u) && Ends(u, r)
    ensures HandOver(t, r)
  {
    CardsCarry(t, u);
    var v :| r == Showdown(v) && ToShowdown(u, v);
    SettlesFrom(t, u, v);
  }

  lemma {:induction false} SettlesFrom(t: Table, u: Table, v: Table)
    requires SamePlayers(t.seats, u.seats) && SameRules(t, u) && Money(u) == Money(t)
    requires (CardsDealt(t) ==> CardsDealt(u)) && ToShowdown(u, v)
    ensures Settles(t, v)
  {
    SameStakesSums(u.seats, v.seats);
  }

  lemma {:induction false} ContinuesPlay(t: Table, u: Table, r: Table)
    requires SamePlayers(t.seats, u.seats) && Money(u) == Money(t) && (CardsDealt(t) ==> CardsDealt(u))
    requires SameRules(t, u) && Continues(u, r)
    ensures PlaysOn(t, r)
  {
    SameStakesSums(u.seats, r.seats);
  }

  lemma {:induction false} PhasePasses(t: Table, u: Table)
    requires InPlay(t) && Books(u) && SameHand(t, u)
    ensures var r := AdvancePhase(u); HandOver(t, r) || (PlaysOn(t, r) && Descends(t, r))
  {
    var r := AdvancePhase(u);
    StreetAdvances(u);
    if Ends(u, r) {
      EndsSettles(t, u, r);
    } else {
      CardsCarry(t, u);
      ContinuesPlay(t, u, r);
    }
  }

  lemma {:induction false} PassTurnIs(u: Table)
    ensures IsBettingRoundComplete(u) ==> PassTurn(u) == AdvancePhase(u)
    ensures !IsBettingRoundComplete(u) ==> PassTurn(u) == FindNextActionable(u.(current := u.current + 1))
  {
  }

  lemma {:induction false} PassTurnKeeps(t: Table, u: Table, r: Table)
    requires InPlay(t) && Books(u) && SameHand(t, u) && Progress(t, u, Seated(t))
    requires IsBettingRoundComplete(u) ==> r == AdvancePhase(u)
    requires !IsBettingRoundComplete(u) ==> r == FindNextActionable(u.(current := u.current + 1))
    ensures HandOver(t, r) || (PlaysOn(t, r) && Descends(t, r))
    ensures !IsBettingRoundComplete(u) ==> PlaysOn(t, r)
  {
    if IsBettingRoundComplete(u) {
      PhasePasses(t, u);
    } else {
      TurnPasses(t, u);
    }
  }

  /** No deadlock, conservation, descent: what one legal action leads to. */
  lemma {:induction false} ActKeeps(t: Table, d: Decision)
    requires InPlay(t) && Legal(t, Seated(t), d.action)
    ensures HandOver(t, Act(t, d)) || (PlaysOn(t, Act(t, d)) && Descends(t, Act(t, d)))
    ensures !IsBettingRoundComplete(ApplyDecision(t, Seated(t), d.action, d.amount)) ==> PlaysOn(t, Act(t, d))
  {
    DecisionKeeps(t, Seated(t), d.action, d.amount);
    var u := ApplyDecision(t, Seated(t), d.action, d.amount);
    PassTurnIs(u);
    PassTurnKeeps(t, u, PassTurn(u));
  }

  // ---- The rank falls ----

  /** Comparing `a * m + x` with `b * m + y` when the low parts are below `m`. */
  lemma {:induction false} HighFirst(a: int, b: int, x: int, y: int, m: int)
    requires a < b && 0 <= x < m && 0 <= y
    ensures a * m + x < b * m + y
  {
    assert (a + 1) * m == a * m + m;
    Monotone(a + 1, b, m);
  }

  lemma {:induction false} RankOfFits(streets: int, room: int, owed: int, dist: int, bound: int, width: int, n: int)
    requires streets >= 0 && room >= 0 && owed >= 0 && dist >= 0 && bound >= 0 && width >= 0 && n >= 0
    ensures RankOf(streets, room, owed, dist, bound, width, n) >= 0
  {
    Monotone(0, streets, bound + 1);
    var high := streets * (bound + 1) + room;
    Monotone(0, high, width + 1);
    Monotone(0, high * (width + 1) + owed, n + 1);
  }

  lemma {:induction false} RankOfFalls(
      s: int, room: int, owed: int, dist: int, s': int, room': int, owed': int, dist': int, bound: int, width: int,
          n: int)
    requires 0 <= room && 0 <= room' <= bound && 0 <= owed && 0 <= owed' <= width && 0 <= dist && 0 <= dist' <= n
    requires s' < s || (s' == s
        && (room' < room || (room' == room && (owed' < owed || (owed' == owed && dist' < dist)))))
    ensures RankOf(s', room', owed', dist', bound, width, n) < RankOf(s, room, owed, dist, bound, width, n)
  {
    var high, high' := s * (bound + 1) + room, s' * (bound + 1) + room';
    if s' < s {
      HighFirst(s', s, room', room, bound + 1);
    }
    assert high' < high || (high' == high && (owed' < owed || (owed' == owed && dist' < dist)));
    RankOfLow(high, owed, dist, high', owed', dist', width, n);
  }

  lemma {:induction false} RankOfLow(
      high: int, owed: int, dist: int, high': int, owed': int, dist': int, width: int, n: int)
    requires 0 <= owed && 0 <= owed' <= width && 0 <= dist && 0 <= dist' <= n
    requires high' < high || (high' == high && (owed' < owed || (owed' == owed && dist' < dist)))
    ensures (high' * (width + 1) + owed') * (n + 1) + dist' < (high * (width + 1) + owed) * (n + 1) + dist
  {
    var mid, mid' := high * (width + 1) + owed, high' * (width + 1) + owed';
    if high' < high {
      HighFirst(high', high, owed', owed, width + 1);
    }
    if mid' < mid {
      HighFirst(mid', mid, dist', dist, n + 1);
    }
  }

  lemma {:induction false} RankNonNegative(t: Table)
    requires Books(t)
    ensures Rank(t) >= 0
  {
    SumsFit(t.seats);
    Monotone(0, |t.seats|, BetBound(t) + 1);
    RankOfFits(SHOWDOWN - t.phaseIndex, BetBound(t) - t.currentBet, TotalOwed(t.seats, t.currentBet),
               Distance(t.seats, t.currentBet, t.current, |t.seats|),
               BetBound(t), |t.seats| * (BetBound(t) + 1), |t.seats|);
  }

  lemma {:induction false} RankFalls(t: Table, r: Table)
    requires Books(t) && Books(r) && |r.seats| == |t.seats| && Money(r) == Money(t) && r.bigBlind == t.bigBlind
    requires Descends(t, r)
    ensures Rank(r) < Rank(t)
  {
    var bound, n := BetBound(t), |t.seats|;
    OwedBound(r.seats, r.currentBet, bound);
    DistanceBound(r.seats, r.currentBet, r.current, n);
    RankOfFalls(SHOWDOWN - t.phaseIndex, bound - t.currentBet, TotalOwed(t.seats, t.currentBet),
                Distance(t.seats, t.currentBet, t.current, n),
                SHOWDOWN - r.phaseIndex, bound - r.currentBet, TotalOwed(r.seats, r.currentBet),
                Distance(r.seats, r.currentBet, r.current, n), bound, n * (bound + 1), n);
  }

  // ---- Whole runs ----

  /** Takes the decisions in turn, until the hand is over. */
  function Play(t: Table, ds: seq<Decision>): Table
    decreases |ds|
  {
    if ds == [] || t.intermission || t.seats == [] then t else Play(Act(t, ds[0]), ds[1..])
  }

  /** Every decision is legal when it is taken, and taken before the hand is over. */
  predicate Accepted(t: Table, ds: seq<Decision>)
    decreases |ds|
  {
    ds == []
    || (!t.intermission && t.seats != [] && Legal(t, Seated(t), ds[0].action) && Accepted(Act(t, ds[0]), ds[1..]))
  }

  lemma {:induction false} PlaysOnFrom(t: Table, u: Table, r: Table)
    requires PlaysOn(t, u)
    ensures HandOver(u, r) ==> HandOver(t, r)
    ensures PlaysOn(u, r) ==> PlaysOn(t, r)
  {
    if HandOver(u, r) {
      var v :| r == Showdown(v) && Settles(u, v);
      SettlesTrans(t, u, v);
    }
    if PlaysOn(u, r) {
      PlaysOnTrans(t, u, r);
    }
  }

  lemma {:induction false} SettlesTrans(t: Table, u: Table, v: Table)
    requires PlaysOn(t, u) && Settles(u, v)
    ensures Settles(t, v)
  {
    SamePlayersTrans(t.seats, u.seats, v.seats);
  }

  lemma {:induction false} PlaysOnTrans(t: Table, u: Table, v: Table)
    requires PlaysOn(t, u) && PlaysOn(u, v)
    ensures PlaysOn(t, v)
  {
    SamePlayersTrans(t.seats, u.seats, v.seats);
  }

  lemma {:induction false} SamePlayersTrans(a: seq<Seat>, b: seq<Seat>, c: seq<Seat>)
    requires SamePlayers(a, b) && SamePlayers(b, c)
    ensures SamePlayers(a, c)
  {
  }

  /** Every hand ends: no more actions than the rank are ever accepted, and each leaves a playable table or the end. */
  lemma {:induction false} EveryHandEnds(t: Table, ds: seq<Decision>)
    requires InPlay(t) && Accepted(t, ds)
    ensures |ds| <= Rank(t) + 1
    ensures HandOver(t, Play(t, ds)) || PlaysOn(t, Play(t, ds))
    decreases |ds|
  {
    RankNonNegative(t);
    if ds != [] {
      var u := Act(t, ds[0]);
      ActKeeps(t, ds[0]);
      if HandOver(t, u) {
        assert u.intermission;
        assert ds[1..] == [];
      } else {
        RankFalls(t, u);
        EveryHandEnds(u, ds[1..]);
        PlaysOnFrom(t, u, Play(t, ds));
      }
    }
  }
}
