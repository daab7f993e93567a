/** No step between wallets and tables creates or loses money, but for what a showdown leaves undistributed. */
module TableMoneyProofs {
  import opened Tables
  import opened SidePots
  import opened Showdowns
  import opened ShowdownProofs
  import opened Betting
  import opened BettingInvariants
  import opened HandProgress
  import opened HandStart
  import opened Sessions
  import opened AbandonedHands
  import opened Wallets
  import opened Seating
  import opened Commissions
  import opened TableMoney
  import opened Options

  // ---- A seat that is not in the hand, or not changed in it ----

  /** What the round looks at in a seat. */
  predicate SameInRound(a: Seat, b: Seat) {
    b.folded == a.folded && (a.folded || (b.allIn == a.allIn && b.roundBet == a.roundBet && b.hasActed == a.hasActed))
  }

  lemma {:induction false} CountsSame(seats: seq<Seat>, k: nat, s: Seat)
    requires k < |seats| && SameInRound(seats[k], s)
    ensures var r := seats[k := s];
      CountLive(r) == CountLive(seats) && CountActionable(r) == CountActionable(seats)
          && MaxLiveBet(r) == MaxLiveBet(seats)
  {
    if k == 0 {
      assert seats[k := s][1..] == seats[1..];
    } else {
      assert seats[k := s][1..] == seats[1..][k - 1 := s];
      CountsSame(seats[1..], k - 1, s);
    }
  }

  lemma {:induction false} RoundSame(t: Table, k: nat, s: Seat)
    requires k < |t.seats| && SameInRound(t.seats[k], s)
    ensures IsBettingRoundComplete(t.(seats := t.seats[k := s])) == IsBettingRoundComplete(t)
  {
    var u := t.(seats := t.seats[k := s]);
    CountsSame(t.seats, k, s);
    assert forall i :: 0 <= i < |t.seats| ==> Owes(u.seats[i], t.currentBet) == Owes(t.seats[i], t.currentBet);
    assert IsAllInSettled(u.seats) == IsAllInSettled(t.seats) by {
      assert forall i :: 0 <= i < |t.seats| ==>
        (Actionable(u.seats[i]) && u.seats[i].roundBet < MaxLiveBet(u.seats)
         <==> Actionable(t.seats[i]) && t.seats[i].roundBet < MaxLiveBet(t.seats));
    }
  }

  /** A hand in play stays in play when a seat gains chips outside it, or its owner sits out or in. */
  lemma {:induction false} PlayGoesOn(t: Table, k: nat, s: Seat)
    requires InPlay(t) && k < |t.seats| && SameInRound(t.seats[k], s) && SeatOk(s)
    requires s.name == t.seats[k].name && s.totalBet == t.seats[k].totalBet && s.chips >= t.seats[k].chips
    ensures var u := t.(seats := t.seats[k := s]);
      InPlay(u) && Money(u) == Money(t) + s.chips - t.seats[k].chips
  {
    SumUpdate(t.seats, k, s);
    RoundSame(t, k, s);
  }

  /** A table nobody has come to yet. */
  lemma {:induction false} NewTableOk(a: ActiveTable, site: Site)
    requires a.engine.seats == [] && a.seatIndex == [] && a.userMap == map[] && a.userIDs == map[]
    requires a.engine.pot == 0 && !a.engine.gameStarted && !a.engine.gameFinished
    requires 0 <= a.engine.smallBlind <= a.engine.bigBlind
    ensures TableOk(a, site) && Ordered(a.engine)
  {
  }

  // ---- Steps at one table ----

  lemma {:induction false} SumChipsSnoc(seats: seq<Seat>, s: Seat)
    ensures SumChips(seats + [s]) == SumChips(seats) + s.chips
  {
    if seats == [] {
      assert seats + [s] == [s];
    } else {
      SumChipsSnoc(seats[1..], s);
      assert (seats + [s])[1..] == seats[1..] + [s];
    }
  }

  lemma {:induction false} NameFree(a: ActiveTable, site: Site, user: nat)
    requires UniqueUsers(site) && TableOk(a, site) && user !in a.userMap && user < |site.users|
    ensures site.users[user].username !in a.userIDs
  {
  }

  lemma {:induction false} JoinedPlayers(a: ActiveTable, site: Site, user: nat, chips: int)
    requires PlayersOk(a, site) && !Live(a.engine) && user < |site.users| && chips >= 0
    ensures var b := WithPlayer(a, user, site.users[user].username, chips);
      PlayersOk(b, site) && Money(b.engine) == Money(a.engine) + chips && (Ordered(a.engine) ==> Ordered(b.engine))
  {
    SumChipsSnoc(a.engine.seats, NewSeat(site.users[user].username, chips));
  }

  lemma {:induction false} JoinedTable(a: ActiveTable, site: Site, user: nat, chips: int)
    requires UniqueUsers(site) && TableOk(a, site) && !Live(a.engine)
    requires user !in a.userMap && user < |site.users| && chips >= 0
    ensures var b := WithPlayer(a, user, site.users[user].username, chips);
      TableOk(b, site) && Money(b.engine) == Money(a.engine) + chips && (Ordered(a.engine) ==> Ordered(b.engine))
  {
    NameFree(a, site, user);
    JoinAgrees(a, user, site.users[user].username, chips);
    JoinedPlayers(a, site, user, chips);
  }

  lemma {:induction false} WalletMoved(wallets: seq<int>, user: nat, delta: int)
    requires user < |wallets| && wallets[user] + delta >= 0 && forall u :: 0 <= u < |wallets| ==> wallets[u] >= 0
    ensures SumWallets(Add(wallets, user, delta)) == SumWallets(wallets) + delta
    ensures forall u :: 0 <= u < |wallets| ==> Add(wallets, user, delta)[u] >= 0
  {
    AddSums(wallets, user, delta);
  }

  /** The money of a desk when its parts change. */
  lemma {:induction false} DeskMoved(d: Desk, site: Site, user: nat, delta: int, b: ActiveTable)
    requires DeskOk(d, site) && user < |d.wallets| && d.wallets[user] + delta >= 0
    requires TableOk(b, site) && Money(b.engine) == Money(d.table.engine) - delta
    ensures DeskOk(Desk(Add(d.wallets, user, delta), b), site)
        && Value(Desk(Add(d.wallets, user, delta), b)) == Value(d)
  {
    WalletMoved(d.wallets, user, delta);
  }

  lemma {:induction false} JoinKeeps(d: Desk, site: Site, user: nat, quoted: int)
    requires UniqueUsers(site) && DeskOk(d, site) && user < |site.users|
    ensures DeskOk(Join(d, site, user, quoted).0, site) && Value(Join(d, site, user, quoted).0) == Value(d)
    ensures Ordered(d.table.engine) ==> Ordered(Join(d, site, user, quoted).0.table.engine)
  {
    if Join(d, site, user, quoted).1.Done? {
      JoinedTable(d.table, site, user, BuyInOf(d.table));
      DeskMoved(d, site, user, -BuyInOf(d.table),
          WithPlayer(d.table, user, site.users[user].username, BuyInOf(d.table)));
    }
  }

  /** The seat a refill finds is the user's own. */
  lemma {:induction false} OwnSeat(a: ActiveTable, user: nat)
    requires SeatsAgree(a) && user in a.userMap
    ensures SeatOf(a, user) == a.userMap[user] < |a.engine.seats|
    ensures a.engine.seats[SeatOf(a, user)].name in a.userIDs && a.userIDs[a.engine.seats[SeatOf(a, user)].name] == user
  {
    assert a.seatIndex[a.userMap[user]] == a.userMap[user];
  }

  /** A seat that gains chips, or whose owner sits out or in. */
  lemma {:induction false} SeatChanged(a: ActiveTable, site: Site, k: nat, s: Seat)
    requires TableOk(a, site) && k < |a.engine.seats|
    requires var was := a.engine.seats[k];
      s.name == was.name && s.isBot == was.isBot && s.totalBet == was.totalBet && s.roundBet == was.roundBet
          && s.chips >= was.chips
    ensures TableOk(Reseated(a, k, s), site)
    ensures Money(Reseated(a, k, s).engine) == Money(a.engine) + s.chips - a.engine.seats[k].chips
  {
    SameSeatsAgree(a, a.engine.(seats := a.engine.seats[k := s]));
    SumUpdate(a.engine.seats, k, s);
    if a.engine.gameStarted {
      assert Staked(a.engine.seats[k]);
    }
  }

  lemma {:induction false} SeatOrdered(a: ActiveTable, k: nat, s: Seat)
    requires Ordered(a.engine) && k < |a.engine.seats|
    requires var was := a.engine.seats[k]; s.name == was.name && s.totalBet == was.totalBet && s.chips >= was.chips
    requires Live(a.engine) ==> SameInRound(a.engine.seats[k], s) && SeatOk(s)
    ensures Ordered(Reseated(a, k, s).engine)
  {
    if Live(a.engine) {
      PlayGoesOn(a.engine, k, s);
    }
  }

  lemma {:induction false} RefillCases(d: Desk, user: nat, amount: int)
    requires user < |d.wallets| && |d.table.seatIndex| == |d.table.engine.seats|
    ensures var (r, reply) := Refill(d, user, amount);
      if reply.Done? then
        && user in d.table.userMap && SeatOf(d.table, user) < |d.table.engine.seats|
        && 0 < amount <= d.wallets[user]
        && var k := SeatOf(d.table, user);
        && !InLiveHand(d.table.engine, d.table.engine.seats[k])
        && r == Desk(Add(d.wallets, user, -amount), Reseated(d.table, k, Refilled(d.table.engine.seats[k], amount)))
      else r == d
  {
  }

  lemma {:induction false} RefillKeeps(d: Desk, site: Site, user: nat, amount: int)
    requires DeskOk(d, site) && user < |site.users|
    ensures DeskOk(Refill(d, user, amount).0, site) && Value(Refill(d, user, amount).0) == Value(d)
    ensures Ordered(d.table.engine) ==> Ordered(Refill(d, user, amount).0.table.engine)
  {
    RefillCases(d, user, amount);
    if Refill(d, user, amount).1.Done? {
      OwnSeat(d.table, user);
      RefilledDesk(d, site, user, amount, SeatOf(d.table, user));
      if Ordered(d.table.engine) {
        RefilledOrdered(d.table, site, SeatOf(d.table, user), amount);
      }
    }
  }

  lemma {:induction false} RefilledDesk(d: Desk, site: Site, user: nat, amount: int, k: nat)
    requires DeskOk(d, site) && user < |site.users| && 0 < amount <= d.wallets[user] && k < |d.table.engine.seats|
    ensures var r := Desk(Add(d.wallets, user, -amount),
        Reseated(d.table, k, Refilled(d.table.engine.seats[k], amount)));
      DeskOk(r, site) && Value(r) == Value(d)
  {
    var b := Reseated(d.table, k, Refilled(d.table.engine.seats[k], amount));
    assert TableOk(b, site) && Money(b.engine) == Money(d.table.engine) + amount by {
      SeatChanged(d.table, site, k, Refilled(d.table.engine.seats[k], amount));
    }
    DeskMoved(d, site, user, -amount, b);
  }

  /** A hand in play takes no notice of a folded player's refill. */
  lemma {:induction false} RefilledOrdered(a: ActiveTable, site: Site, k: nat, amount: int)
    requires Ordered(a.engine) && PlayersOk(a, site) && k < |a.engine.seats| && amount > 0
    requires !InLiveHand(a.engine, a.engine.seats[k])
    ensures Ordered(Reseated(a, k, Refilled(a.engine.seats[k], amount)).engine)
  {
    if Live(a.engine) {
      assert SeatOk(a.engine.seats[k]);
    }
    SeatOrdered(a, k, Refilled(a.engine.seats[k], amount));
  }

  lemma {:induction false} SitKeeps(d: Desk, site: Site, k: nat, out: bool)
    requires DeskOk(d, site)
    ensures DeskOk(Sit(d, k, out), site) && Value(Sit(d, k, out)) == Value(d)
    ensures Ordered(d.table.engine) ==> Ordered(Sit(d, k, out).table.engine)
  {
    var seats := d.table.engine.seats;
    if k < |seats| {
      SeatChanged(d.table, site, k, seats[k].(sittingOut := out));
      if Ordered(d.table.engine) {
        if Live(d.table.engine) {
          assert SeatOk(seats[k]);
        }
        SeatOrdered(d.table, k, seats[k].(sittingOut := out));
      }
    }
  }

  lemma {:induction false} RemovedSums(seats: seq<Seat>, k: nat)
    requires k < |seats|
    ensures SumChips(RemoveSeat(seats, k)) == SumChips(seats) - seats[k].chips
    ensures SumTotalBets(RemoveSeat(seats, k)) == SumTotalBets(seats) - seats[k].totalBet
  {
    if k == 0 {
      assert RemoveSeat(seats, 0) == seats[1..];
    } else {
      RemovedSums(seats[1..], k - 1);
      assert RemoveSeat(seats, k)[1..] == RemoveSeat(seats[1..], k - 1);
    }
  }

  lemma {:induction false} LeftSound(t: Table, k: nat)
    requires Sound(t) && NoBots(t.seats) && k < |t.seats|
    ensures var seats := RemoveSeat(t.seats, k);
      Sound(t.(seats := seats, gameStarted := t.gameStarted && |seats| >= 2)) && NoBots(seats)
  {
    RemovedSums(t.seats, k);
    var seats := RemoveSeat(t.seats, k);
    assert forall j :: 0 <= j < |seats| ==> seats[j] == t.seats[if j < k then j else j + 1];
    if t.gameStarted {
      assert Staked(t.seats[k]);
    }
  }

  lemma {:induction false} LeftTable(a: ActiveTable, site: Site, user: nat)
    requires TableOk(a, site) && user in a.userMap
    ensures SeatOf(a, user) < |a.engine.seats| && a.engine.seats[SeatOf(a, user)].chips >= 0
    ensures var k := SeatOf(a, user);
      var b := WithoutPlayer(a, user, k);
      TableOk(b, site) && Money(b.engine) == Money(a.engine) - a.engine.seats[k].chips
  {
    OwnSeat(a, user);
    LeaveAgrees(a, user, SeatOf(a, user));
    LeftSound(a.engine, SeatOf(a, user));
    RemovedSums(a.engine.seats, SeatOf(a, user));
  }

  /** A player who leaves in the middle of a hand leaves bets in the pot that are nobody's any more. */
  lemma {:induction false} LeaverBets(t: Table, k: nat)
    requires k < |t.seats| && t.pot == SumTotalBets(t.seats)
    ensures t.pot == SumTotalBets(RemoveSeat(t.seats, k)) + t.seats[k].totalBet
  {
    RemovedSums(t.seats, k);
  }

  lemma {:induction false} LeaveIs(d: Desk, user: nat)
    requires user < |d.wallets| && SeatsAgree(d.table) && user in d.table.userMap
    requires SeatOf(d.table, user) < |d.table.engine.seats| && d.table.engine.seats[SeatOf(d.table, user)].chips >= 0
    ensures var k := SeatOf(d.table, user);
      Leave(d, user) == Desk(Add(d.wallets, user, d.table.engine.seats[k].chips), WithoutPlayer(d.table, user, k))
  {
    assert Add(d.wallets, user, 0) == d.wallets;
  }

  /** Leaving moves a stack to its wallet, at any time; between hands it leaves no bet behind. */
  lemma {:induction false} LeaveKeeps(d: Desk, site: Site, user: nat)
    requires DeskOk(d, site) && user < |site.users|
    ensures DeskOk(Leave(d, user), site) && Value(Leave(d, user)) == Value(d)
    ensures Ordered(d.table.engine) && !(user in d.table.userMap && Live(d.table.engine)) ==>
      Ordered(Leave(d, user).table.engine)
  {
    var a := d.table;
    if user in a.userMap {
      LeftTable(a, site, user);
      LeaveIs(d, user);
      WalletMoved(d.wallets, user, a.engine.seats[SeatOf(a, user)].chips);
    }
  }

  lemma {:induction false} KeepAll(seats: seq<Seat>)
    requires forall k :: 0 <= k < |seats| ==> !seats[k].isBot
    ensures KeepSeats(seats) == seats
  {
    if seats != [] {
      KeepAll(seats[1..]);
    }
  }

  // ---- Hands ----

  function LossOf(u: Option<Table>): int {
    if u.None? then 0 else Lost(u.value)
  }

  /** The engine goes from `t` to `r`, through the showdown of `u` if there is one, which costs its exact loss. */
  ghost predicate Played(t: Table, r: Table, u: Option<Table>) {
    && Sound(r) && SameSeating(t.seats, r.seats) && Money(r) == Money(t) - LossOf(u) && LossOf(u) >= 0
    && (u.Some? <==> r.intermission)
    && (u.Some? ==> r == Showdown(u.value) && r.pot == 0 && Covered(r.seats, r.payouts))
  }

  lemma {:induction false} ClosedPlayed(t: Table, u: Table)
    requires Closes(t, u) && UniqueNames(t.seats) && 0 <= t.smallBlind <= t.bigBlind && !t.gameFinished
    ensures Played(t, Showdown(u), Some(u)) && Ordered(Showdown(u))
  {
    ClosedBalance(t, u);
  }

  /** A hand nobody has left, as far as it went. */
  lemma {:induction false} HandPlayed(b: Table, r: Table) returns (u: Option<Table>)
    requires HandOver(b, r) || PlaysOn(b, r)
    requires UniqueNames(b.seats) && 0 <= b.smallBlind <= b.bigBlind && !b.gameFinished
    ensures Played(b, r, u) && Ordered(r) && (u.Some? ==> Settles(b, u.value))
  {
    if PlaysOn(b, r) {
      u := None;
      PlayIsWagered(r);
      PlayIsSound(r);
      SamePlayersSeating(b.seats, r.seats);
    } else {
      var v :| r == Showdown(v) && Settles(b, v);
      u := Some(v);
      SettlingCloses(b, v);
      ClosedPlayed(b, v);
    }
  }

  lemma {:induction false} SamePlayersSeating(a: seq<Seat>, b: seq<Seat>)
    requires SamePlayers(a, b)
    ensures SameSeating(a, b)
  {
    forall k | 0 <= k < |a| ensures b[k].name == a[k].name && b[k].isBot == a[k].isBot {
      assert PersonAt(b[k]) == PersonAt(a[k]);
    }
  }

  lemma {:induction false} PlayIsSound(t: Table)
    requires InPlay(t) && 0 <= t.smallBlind <= t.bigBlind && !t.gameFinished
    ensures Sound(t)
  {
    PlayIsWagered(t);
    SumsFit(t.seats);
    forall i | 0 <= i < |t.seats| ensures t.seats[i].chips >= 0 {
      assert SeatOk(t.seats[i]);
    }
  }

  lemma {:induction false} DealtSeating(t: Table, shuffled: seq<string>)
    requires Waiting(t) && |DealtInFrom(t.seats, 0)| >= 2 && forall k :: 0 <= k < |t.seats| ==> !t.seats[k].isBot
    ensures var b := Dealt(t, shuffled);
      && SameSeating(t.seats, b.seats) && b.gameFinished == t.gameFinished
      && b.smallBlind == t.smallBlind && b.bigBlind == t.bigBlind
  {
    KeepAll(Map(t.seats, ResetSeat));
    DealtFixes(t, shuffled);
    var kept, b := NextSeats(t.seats), Dealt(t, shuffled);
    forall k | 0 <= k < |t.seats| ensures b.seats[k].name == t.seats[k].name && b.seats[k].isBot == t.seats[k].isBot {
      assert PersonAt(b.seats[k]) == PersonAt(kept[k]);
    }
  }

  /** A hand that is dealt gathers all the stacks anew; whatever was in the pot before is gone. */
  lemma {:induction false} DealPlays(t: Table, shuffled: seq<string>) returns (u: Option<Table>)
    requires Waiting(t) && NoBots(t.seats) && !t.gameFinished && |DealtInFrom(t.seats, 0)| >= 2
    ensures var b, r := Dealt(t, shuffled), StartHand(t, shuffled).0;
      && StartHand(t, shuffled).1 && Money(b) == Money(t) - t.pot
      && Played(b, r, u) && SameSeating(t.seats, r.seats) && Ordered(r) && (u.Some? ==> Settles(b, u.value))
  {
    var b, r := Dealt(t, shuffled), StartHand(t, shuffled).0;
    StartHandPlays(t, shuffled);
    DealtSeating(t, shuffled);
    u := HandPlayed(b, r);
    SeatingTrans(t.seats, b.seats, r.seats);
  }

  /** The pot that a new hand drops. */
  function Dropped(t: Table, cue: Cue): int {
    if MayDeal(t, cue) && |DealtInFrom(t.seats, 0)| >= 2 then t.pot else 0
  }

  /** A hand is dealt, and the blinds already decide it. */
  predicate DealEnds(t: Table, cue: Cue, shuffled: seq<string>) {
    var (r, ok) := StartHand(t.(intermission := false), shuffled);
    MayDeal(t, cue) && ok && r.intermission
  }

  /** The hand dealt goes to the showdown of `u` without anyone acting. */
  ghost predicate DealEndsIn(t: Table, shuffled: seq<string>, u: Table) {
    var waiting := t.(intermission := false);
    && StartHand(waiting, shuffled) == (Showdown(u), true) && Settles(Dealt(waiting, shuffled), u)
  }

  lemma {:induction false} DealtTable(t: Table, cue: Cue, shuffled: seq<string>) returns (u: Option<Table>)
    requires Sound(t) && UniqueNames(t.seats) && NoBots(t.seats)
    ensures var r := Deal(t, cue, shuffled);
      && Sound(r) && SameSeating(t.seats, r.seats)
      && Money(r) == Money(t) - (Dropped(t, cue) + LossOf(u)) && LossOf(u) >= 0
      && (Ordered(t) || Dealing(t, cue) ==> Ordered(r))
    ensures (u.Some? <==> DealEnds(t, cue, shuffled)) && (u.Some? ==> DealEndsIn(t, shuffled, u.value))
  {
    u := None;
    if MayDeal(t, cue) {
      var waiting := t.(intermission := false);
      if Dealing(t, cue) {
        u := DealPlays(waiting, shuffled);
      } else {
        StartHandPlays(waiting, shuffled);
      }
    }
  }

  /** A new hand really starts. */
  predicate Dealing(t: Table, cue: Cue) {
    MayDeal(t, cue) && |DealtInFrom(t.seats, 0)| >= 2
  }

  /** A table whose players are unchanged. */
  lemma {:induction false} Reengined(a: ActiveTable, site: Site, t: Table)
    requires TableOk(a, site) && SameSeating(a.engine.seats, t.seats) && Sound(t)
    ensures TableOk(a.(engine := t), site)
  {
    SameSeatsAgree(a, t);
  }

  /** Dealing a hand: any pot left over is lost with it, and the exact loss of a showdown at once. */
  lemma {:induction false} DealKeeps(d: Desk, site: Site, cue: Cue, shuffled: seq<string>) returns (u: Option<Table>)
    requires DeskOk(d, site)
    ensures var r := d.(table := d.table.(engine := Deal(d.table.engine, cue, shuffled)));
      && DeskOk(r, site) && Value(r) == Value(d) - (Dropped(d.table.engine, cue) + LossOf(u)) && LossOf(u) >= 0
      && (Ordered(d.table.engine) || Dealing(d.table.engine, cue) ==> Ordered(r.table.engine))
    ensures u.Some? <==> DealEnds(d.table.engine, cue, shuffled)
    ensures u.Some? ==> DealEndsIn(d.table.engine, shuffled, u.value)
  {
    AgreeingNames(d.table);
    u := DealtTable(d.table.engine, cue, shuffled);
    Reengined(d.table, site, Deal(d.table.engine, cue, shuffled));
  }

  /** Whatever a player asks for, the hand goes on or ends, also when somebody has left it. */
  lemma {:induction false} RequestPlays(t: Table, name: string, action: string, amount: int) returns (u: Option<Table>)
    requires Sound(t) && t.gameStarted && NoBots(t.seats) && UniqueNames(t.seats)
    ensures var r := HumanAction(t, name, action, amount, NO_BOT).0;
      && Played(t, r, u) && (InPlay(t) ==> Ordered(r))
      && (u.Some? ==> Closes(t, u.value) && (InPlay(t) ==> Settles(t, u.value)))
  {
    var r := HumanAction(t, name, action, amount, NO_BOT).0;
    if !HumanAction(t, name, action, amount, NO_BOT).1 {
      u := None;
    } else if InPlay(t) {
      u := StrictRequest(t, name, action, amount);
    } else {
      u := LooseRequest(t, name, action, amount);
    }
  }

  lemma {:induction false} StrictRequest(t: Table, name: string, action: string, amount: int) returns (u: Option<Table>)
    requires InPlay(t) && HumanAction(t, name, action, amount, NO_BOT).1
    requires UniqueNames(t.seats) && 0 <= t.smallBlind <= t.bigBlind && !t.gameFinished
    ensures var r := HumanAction(t, name, action, amount, NO_BOT).0;
      Played(t, r, u) && Ordered(r) && (u.Some? ==> Closes(t, u.value) && Settles(t, u.value))
  {
    var r := HumanAction(t, name, action, amount, NO_BOT).0;
    HumanActionPlays(t, name, action, amount, NO_BOT);
    var one, two := [Decision(ActionOf(action), amount)], [Decision(ActionOf(action), amount), NO_BOT];
    var ds := if Accepted(t, one) && r == Play(t, one) then one else two;
    EveryHandEnds(t, ds);
    u := HandPlayed(t, r);
    if u.Some? {
      SettlingCloses(t, u.value);
    }
  }

  lemma {:induction false} LooseRequest(t: Table, name: string, action: string, amount: int) returns (u: Option<Table>)
    requires Sound(t) && t.gameStarted && NoBots(t.seats) && UniqueNames(t.seats)
    ensures var r := HumanAction(t, name, action, amount, NO_BOT).0;
      Played(t, r, u) && (u.Some? ==> Closes(t, u.value))
  {
    var r := HumanAction(t, name, action, amount, NO_BOT).0;
    RequestReaches(t, name, action, amount, NO_BOT);
    if Carries(t, r) {
      u := None;
      WageredSound(r);
    } else {
      var v :| r == Showdown(v) && Closes(t, v);
      u := Some(v);
      ClosedPlayed(t, v);
    }
  }

  lemma {:induction false} WageredSound(t: Table)
    requires Wagered(t) && 0 <= t.smallBlind <= t.bigBlind && !t.gameFinished
    ensures Sound(t)
  {
    forall i | 0 <= i < |t.seats| ensures t.seats[i].chips >= 0 && t.seats[i].totalBet >= 0 {
      assert Staked(t.seats[i]);
    }
    BetsSum(t.seats);
  }

  /** The table once its stacks have been raked. */
  lemma {:induction false} RakedTable(a: ActiveTable, site: Site, seats: seq<Seat>)
    requires TableOk(a, site) && a.engine.intermission && SameButChips(a.engine.seats, seats) && StacksFit(seats)
    ensures var r := a.engine.(seats := SitOutBusted(seats), payouts := []);
      TableOk(a.(engine := r), site) && Money(r) == SumChips(seats) + a.engine.pot
  {
    var r := a.engine.(seats := SitOutBusted(seats), payouts := []);
    SumChipsSame(seats, r.seats);
    Reengined(a, site, r);
  }

  lemma {:induction false} RakedParts(d: Desk, site: Site, wallets: seq<int>, seats: seq<Seat>)
    requires DeskOk(d, site) && d.table.engine.intermission
    requires SameButChips(d.table.engine.seats, seats) && StacksFit(seats)
    requires |wallets| == |d.wallets| && forall u :: 0 <= u < |wallets| ==> wallets[u] >= d.wallets[u]
    requires SumChips(seats) + SumWallets(wallets) == SumChips(d.table.engine.seats) + SumWallets(d.wallets)
    ensures var r := Desk(wallets, d.table.(engine := d.table.engine.(seats := SitOutBusted(seats), payouts := [])));
      DeskOk(r, site) && Value(r) == Value(d)
  {
    RakedTable(d.table, site, seats);
  }

  /** The commission on a finished hand. */
  lemma {:induction false} CommissionKeeps(d: Desk, site: Site)
    requires DeskOk(d, site) && (d.table.engine.intermission ==> Covered(d.table.engine.seats, d.table.engine.payouts))
    ensures DeskOk(AfterAction(d, site), site) && Value(AfterAction(d, site)) == Value(d)
    ensures Ordered(d.table.engine) ==> Ordered(AfterAction(d, site).table.engine)
  {
    var t := d.table.engine;
    if t.intermission && t.payouts != [] {
      AgreeingNames(d.table);
      CommissionExact(Raked(d.wallets, t.seats), site.users, site.house, d.table.userIDs, t.payouts, t.smallBlind,
          site.settings);
      var q := Commission(Raked(d.wallets, t.seats), site.users, site.house, d.table.userIDs, t.payouts, t.smallBlind,
          site.settings);
      RakedParts(d, site, q.wallets, q.seats);
    }
  }

  /** The action is accepted and ends the hand. */
  ghost predicate SubmitEnds(d: Desk, site: Site, user: nat, action: string, amount: int)
    requires DeskFits(d, site) && user < |site.users|
  {
    && Submit(d, site, user, action, amount).1.Done?
    && HumanAction(d.table.engine, site.users[user].username, action, amount, NO_BOT).0.intermission
  }

  /** A request takes the hand of `t` to the showdown of `u`. */
  ghost predicate RequestEndsIn(t: Table, name: string, action: string, amount: int, u: Table) {
    && HumanAction(t, name, action, amount, NO_BOT).0 == Showdown(u)
    && Closes(t, u) && (InPlay(t) ==> Settles(t, u))
  }

  lemma {:induction false} SubmitKeeps(d: Desk, site: Site, user: nat, action: string, amount: int)
    returns (u: Option<Table>)
    requires DeskOk(d, site) && user < |site.users|
    ensures DeskOk(Submit(d, site, user, action, amount).0, site)
    ensures Value(Submit(d, site, user, action, amount).0) == Value(d) - LossOf(u) && LossOf(u) >= 0
    ensures u.Some? <==> SubmitEnds(d, site, user, action, amount)
    ensures u.Some? ==> RequestEndsIn(d.table.engine, site.users[user].username, action, amount, u.value)
    ensures Ordered(d.table.engine) ==> Ordered(Submit(d, site, user, action, amount).0.table.engine)
  {
    u := None;
    if Submit(d, site, user, action, amount).1.Done? {
      var name := site.users[user].username;
      AgreeingNames(d.table);
      u := RequestPlays(d.table.engine, name, action, amount);
      Answered(d, site, HumanAction(d.table.engine, name, action, amount, NO_BOT).0, u);
    }
  }

  /** The engine has answered a request with `r`. */
  lemma {:induction false} Answered(d: Desk, site: Site, r: Table, u: Option<Table>)
    requires DeskOk(d, site) && Played(d.table.engine, r, u)
    ensures var next := d.(table := d.table.(engine := r));
      && DeskOk(next, site)
      && DeskOk(AfterAction(next, site), site) && Value(AfterAction(next, site)) == Value(d) - LossOf(u)
      && (Ordered(r) ==> Ordered(AfterAction(next, site).table.engine))
  {
    Reengined(d.table, site, r);
    CommissionKeeps(d.(table := d.table.(engine := r)), site);
  }

  // ---- The turn clock ----

  /** The clock is running for the seat to act. */
  predicate Expiring(t: Table) {
    Live(t) && t.seats != [] && Actionable(t.seats[Seated(t)])
  }

  ghost predicate ExpireEnds(t: Table) {
    Expiring(t) && HumanAction(t, t.seats[Seated(t)].name, TimeoutAction(t), 0, NO_BOT).0.intermission
  }

  lemma {:induction false} SatOutCovered(seats: seq<Seat>, k: nat, payouts: seq<Payout>)
    requires Covered(seats, payouts)
    ensures Covered(SatOut(seats, k), payouts)
  {
    var r := SatOut(seats, k);
    forall i | 0 <= i < |payouts| ensures Named(r, payouts[i].winner) < |r| {
      NamedSame(seats, r, payouts[i].winner);
    }
  }

  lemma {:induction false} SatOutPlayed(t: Table, r: Table, u: Option<Table>, k: nat)
    requires Played(t, r, u)
    ensures var s := r.(seats := SatOut(r.seats, k));
      && Sound(s) && SameSeating(t.seats, s.seats) && Money(s) == Money(t) - LossOf(u)
      && (s.intermission ==> Covered(s.seats, s.payouts)) && (Ordered(r) ==> Ordered(s))
  {
    var seats := SatOut(r.seats, k);
    if r.intermission {
      SatOutCovered(r.seats, k, r.payouts);
    }
    if k < |r.seats| {
      SumUpdate(r.seats, k, seats[k]);
      if r.gameStarted {
        assert Staked(r.seats[k]);
      }
      if Ordered(r) && Live(r) {
        assert SeatOk(r.seats[k]);
        PlayGoesOn(r, k, seats[k]);
        assert r.seats[k := seats[k]] == seats;
      }
    }
  }

  lemma {:induction false} ExpireKeeps(d: Desk, site: Site) returns (u: Option<Table>)
    requires DeskOk(d, site)
    ensures DeskOk(Expire(d, site), site) && Value(Expire(d, site)) == Value(d) - LossOf(u) && LossOf(u) >= 0
    ensures u.Some? <==> ExpireEnds(d.table.engine)
    ensures u.Some? ==> var t := d.table.engine;
      t.seats != [] && RequestEndsIn(t, t.seats[Seated(t)].name, TimeoutAction(t), 0, u.value)
    ensures Ordered(d.table.engine) ==> Ordered(Expire(d, site).table.engine)
  {
    u := None;
    var t := d.table.engine;
    if Expiring(t) {
      AgreeingNames(d.table);
      u := RequestPlays(t, t.seats[Seated(t)].name, TimeoutAction(t), 0);
      var r := HumanAction(t, t.seats[Seated(t)].name, TimeoutAction(t), 0, NO_BOT).0;
      SatOutPlayed(t, r, u, Seated(t));
      var s := r.(seats := SatOut(r.seats, Seated(t)));
      Reengined(d.table, site, s);
      CommissionKeeps(d.(table := d.table.(engine := s)), site);
    }
  }

  // ---- A new hand in the middle of one ----

  /** A private table's host may ask for a new hand at any time. It is refused exactly with fewer than two players to
      deal in; otherwise whatever is in the pot is lost, and whatever an immediate showdown loses. */
  lemma {:induction false} RestartLosesPot(t: Table, shuffled: seq<string>) returns (u: Option<Table>)
    requires Waiting(t) && NoBots(t.seats) && !t.gameFinished
    ensures var r := StartHand(t.(intermission := false), shuffled).0;
      if |DealtInFrom(t.seats, 0)| < 2 then u.None? && r == t.(intermission := false)
      else
        && Money(r) == Money(t) - (t.pot + LossOf(u)) && LossOf(u) >= 0
        && Played(Dealt(t.(intermission := false), shuffled), r, u)
        && (t.pot >= 0 ==> (Money(r) == Money(t) <==> t.pot == 0 && LossOf(u) == 0))
    ensures t.pot > 0 ==>
      (Money(StartHand(t.(intermission := false), shuffled).0) == Money(t) <==> |DealtInFrom(t.seats, 0)| < 2)
  {
    var waiting := t.(intermission := false);
    u := None;
    StartHandPlays(waiting, shuffled);
    if |DealtInFrom(t.seats, 0)| >= 2 {
      u := DealPlays(waiting, shuffled);
    }
  }

  /** Heads up after the blinds, with fifteen chips in the pot. */
  function BlindsPosted(): Table {
    var a := Seat("a", false, 95, 5, 5, false, false, false, true, true, false, false, CARD_BACKS);
    var b := Seat("b", false, 90, 10, 10, false, false, false, false, false, true, false, CARD_BACKS);
    Table([a, b], 0, 15, 10, 10, 0, 0, 5, 10, 0, true, false, false, [], [], [])
  }

  lemma {:induction false} TwoSeats(a: Seat, b: Seat)
    ensures SumTotalBets([a, b]) == a.totalBet + b.totalBet && SumChips([a, b]) == a.chips + b.chips
    ensures !a.folded && !b.folded ==> CountLive([a, b]) == 2
  {
    assert [a, b][1..] == [b] && [b][1..] == [];
    assert SumTotalBets([b]) == b.totalBet && SumChips([b]) == b.chips;
    assert !b.folded ==> CountLive([b]) == 1;
  }

  lemma {:induction false} BlindsInPlay()
    ensures InPlay(BlindsPosted())
  {
    var t := BlindsPosted();
    TwoSeats(t.seats[0], t.seats[1]);
    assert Owes(t.seats[0], t.currentBet) && Actionable(t.seats[0]);
  }

  /** A hand that is being played, and whose chips a new start loses. */
  lemma {:induction false} RestartExample(shuffled: seq<string>)
    ensures InPlay(BlindsPosted()) && |DealtInFrom(BlindsPosted().seats, 0)| == 2
    ensures Money(StartHand(BlindsPosted(), shuffled).0) <= Money(BlindsPosted()) - 15
  {
    var t := BlindsPosted();
    BlindsInPlay();
    assert DealtInFrom(t.seats, 2) == [] && DealtInFrom(t.seats, 1) == [1] && DealtInFrom(t.seats, 0) == [0, 1];
    assert t.(intermission := false) == t;
    var u := RestartLosesPot(t, shuffled);
  }

  // ---- What is accepted, and what it does ----

  // ---- Any step ----

  /** The step is taken and ends a hand. */
  ghost predicate Ends(d: Desk, site: Site, e: Step)
    requires DeskFits(d, site)
  {
    match e
    case SubmitAction(user, action, amount) => user < |site.users| && SubmitEnds(d, site, user, action, amount)
    case TurnExpires => ExpireEnds(d.table.engine)
    case DealHand(cue, shuffled) => DealEnds(d.table.engine, cue, shuffled)
    case _ => false
  }

  /** The step takes the hand it plays, or the one it deals, to the showdown of `u`. */
  ghost predicate EndsIn(d: Desk, site: Site, e: Step, u: Table)
    requires DeskFits(d, site)
  {
    var t := d.table.engine;
    match e
    case SubmitAction(user, action, amount) =>
      user < |site.users| && RequestEndsIn(t, site.users[user].username, action, amount, u)
    case TurnExpires => t.seats != [] && RequestEndsIn(t, t.seats[Seated(t)].name, TimeoutAction(t), 0, u)
    case DealHand(cue, shuffled) => DealEndsIn(t, shuffled, u)
    case _ => false
  }

  // What a step costs: the pot it drops, and the loss of the showdown it leads to.
  datatype Loss = Loss(pot: int, showdown: Option<Table>)

  function Cost(l: Loss): int {
    l.pot + LossOf(l.showdown)
  }

  function DroppedBy(t: Table, e: Step): int {
    if e.DealHand? then Dropped(t, e.cue) else 0
  }

  /** What one step does to the money at one table: nothing, unless a new hand drops a pot or a hand ends in a
      showdown. */
  lemma {:induction false} StepKeeps(d: Desk, site: Site, e: Step) returns (l: Loss)
    requires UniqueUsers(site) && DeskOk(d, site)
    ensures DeskFits(d, site) && DeskOk(Take(d, site, e), site)
    ensures Value(Take(d, site, e)) == Value(d) - Cost(l) && LossOf(l.showdown) >= 0
        && l.pot == DroppedBy(d.table.engine, e)
    ensures (l.showdown.Some? <==> Ends(d, site, e)) && (l.showdown.Some? ==> EndsIn(d, site, e, l.showdown.value))
  {
    var u: Option<Table> := None;
    match e {
      case DealHand(cue, shuffled) => u := DealKeeps(d, site, cue, shuffled);
      case SubmitAction(user, action, amount) =>
        if user < |site.users| { u := SubmitKeeps(d, site, user, action, amount); }
      case TurnExpires => u := ExpireKeeps(d, site);
      case _ => QuietStepKeeps(d, site, e);
    }
    l := Loss(DroppedBy(d.table.engine, e), u);
  }

  predicate WithoutHand(e: Step) {
    !e.DealHand? && !e.SubmitAction? && !e.TurnExpires?
  }

  lemma {:induction false} QuietStepKeeps(d: Desk, site: Site, e: Step)
    requires UniqueUsers(site) && DeskOk(d, site) && WithoutHand(e)
    ensures DeskFits(d, site) && DeskOk(Take(d, site, e), site) && Value(Take(d, site, e)) == Value(d)
  {
    match e {
      case JoinTable(user, quoted) => if user < |site.users| { JoinKeeps(d, site, user, quoted); }
      case RefillStack(user, amount) => if user < |site.users| { RefillKeeps(d, site, user, amount); }
      case LeaveTable(user) => if user < |site.users| { LeaveKeeps(d, site, user); }
      case SitDown(seat, out) => SitKeeps(d, site, seat, out);
      case SaveState => SavingChangesNothing(d.table);
    }
  }

  /** Somebody gets up in the middle of a hand. */
  predicate LeavesHand(a: ActiveTable, e: Step) {
    e.LeaveTable? && e.user in a.userMap && Live(a.engine)
  }

  /** Every step but that one keeps a table in order; a hand that starts puts it in order again. */
  lemma {:induction false} StepOrdered(d: Desk, site: Site, e: Step)
    requires UniqueUsers(site) && DeskOk(d, site) && DeskFits(d, site)
    requires (e.DealHand? && Dealing(d.table.engine, e.cue)) || (Ordered(d.table.engine) && !LeavesHand(d.table, e))
    ensures Ordered(Take(d, site, e).table.engine)
  {
    match e {
      case JoinTable(user, quoted) => if user < |site.users| { JoinKeeps(d, site, user, quoted); }
      case RefillStack(user, amount) => if user < |site.users| { RefillKeeps(d, site, user, amount); }
      case LeaveTable(user) => if user < |site.users| { LeaveKeeps(d, site, user); }
      case DealHand(cue, shuffled) => var u := DealKeeps(d, site, cue, shuffled);
      case SubmitAction(user, action, amount) =>
        if user < |site.users| { var u := SubmitKeeps(d, site, user, action, amount); }
      case TurnExpires => var u := ExpireKeeps(d, site);
      case SitDown(seat, out) => SitKeeps(d, site, seat, out);
      case SaveState =>
    }
  }
}
