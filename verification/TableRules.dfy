/** What each request to a table is answered, exactly, and what it leaves. */
module TableRules {
  import opened Tables
  import opened Betting
  import opened HandProgress
  import opened HandStart
  import opened Wallets
  import opened Seating
  import opened Commissions
  import opened TableMoney
  import opened TableMoneyProofs
  import opened Requests

  /** A seat is given exactly if the user has none there, no hand is being played, there is room, and both the balance
      quoted and the wallet cover the buy-in, which is 2000 where the table names none. It is the last seat, it holds
      the buy-in, and the wallet pays it. */
  lemma {:induction false} JoinExactly(d: Desk, site: Site, user: nat, quoted: int)
    requires |d.wallets| == |site.users| && user < |site.users|
    ensures var a, (r, reply) := d.table, Join(d, site, user, quoted);
      var buyIn := if a.buyIn > 0 then a.buyIn else 2000;
      && (reply == Done <==>
            && user !in a.userMap && !(a.engine.gameStarted && !a.engine.intermission)
            && |a.engine.seats| < a.maxPlayers && quoted >= buyIn && d.wallets[user] >= buyIn)
      && (reply != Done ==> r == d)
      && (reply == Done ==>
            && r.wallets == d.wallets[user := d.wallets[user] - buyIn]
            && |r.table.engine.seats| == |a.engine.seats| + 1
            && r.table.engine.seats[..|a.engine.seats|] == a.engine.seats
            && var s := r.table.engine.seats[|a.engine.seats|];
            && s.name == site.users[user].username && s.chips == buyIn && !s.sittingOut && !s.isBot && s.totalBet == 0)
  {
  }

  /** A refill is taken exactly from somebody seated, where it is allowed, for at least the big blind, outside any hand
      the player is still in, as far as the wallet covers it; the whole amount is on the stack then. */
  lemma {:induction false} RefillExactly(d: Desk, user: nat, amount: int)
    requires user < |d.wallets| && SeatsAgree(d.table)
    ensures var a, (r, reply) := d.table, Refill(d, user, amount);
      && (reply == Done <==>
            && user in a.userMap && a.refillAllowed && amount >= a.engine.bigBlind && amount > 0
            && d.wallets[user] >= amount
            && var s := a.engine.seats[a.userMap[user]];
            (s.folded || !a.engine.gameStarted || a.engine.intermission || a.engine.gameFinished))
      && (reply != Done ==> r == d)
      && (reply == Done ==>
            var k := a.userMap[user];
            && r.wallets == d.wallets[user := d.wallets[user] - amount]
            && r.table.engine.seats == a.engine.seats[k := a.engine.seats[k].(
                 chips := a.engine.seats[k].chips + amount, sittingOut := false)])
  {
    if user in d.table.userMap {
      OwnSeat(d.table, user);
    }
  }

  /** After a hand exactly those people without chips are sat out. */
  lemma {:induction false} BustedSitOut(seats: seq<Seat>, k: nat)
    requires k < |seats|
    ensures SitOutBusted(seats)[k]
         == seats[k].(sittingOut := seats[k].sittingOut || (!seats[k].isBot && seats[k].chips <= 0))
  {
  }

  /** The timers never interrupt a hand, and drop no chip at a table in order; only a host can. */
  lemma {:induction false} TimersWait(t: Table, cue: Cue, shuffled: seq<string>)
    requires Sound(t) && cue != Host
    ensures t.gameStarted ==> Deal(t, cue, shuffled) == t
    ensures Ordered(t) ==> Dropped(t, cue) == 0
  {
  }

  /** Whoever leaves takes the stack along, whenever it is; everybody behind moves up, and a hand goes on exactly while
      two are left. */
  lemma {:induction false} LeaveExactly(d: Desk, user: nat)
    requires user < |d.wallets| && SeatsAgree(d.table) && StacksFit(d.table.engine.seats)
    ensures var a, r := d.table, Leave(d, user);
      if user !in a.userMap then r == d
      else
        var k, seats := a.userMap[user], a.engine.seats;
        && r.wallets == d.wallets[user := d.wallets[user] + seats[k].chips]
        && r.table.engine.seats == seats[..k] + seats[k + 1..]
        && (r.table.engine.gameStarted <==> a.engine.gameStarted && |seats| > 2)
        && r.table.engine.pot == a.engine.pot && r.table.engine.intermission == a.engine.intermission
  {
    if user in d.table.userMap {
      OwnSeat(d.table, user);
      LeaveIs(d, user);
    }
  }

  // ---- Dealing ----

  /** Whoever has chips and is not sitting out can be dealt in. */
  predicate TwoReady(seats: seq<Seat>) {
    exists i, j :: 0 <= i < j < |seats| && seats[i].chips > 0 && !seats[i].sittingOut && seats[j].chips > 0
      && !seats[j].sittingOut
  }

  lemma {:induction false} DealtInReady(seats: seq<Seat>)
    requires |DealtInFrom(seats, 0)| >= 2
    ensures TwoReady(seats)
  {
    var dealt := DealtInFrom(seats, 0);
    var i, j := dealt[0], dealt[1];
    assert i < j && DealtIn(seats[i]) && DealtIn(seats[j]);
  }

  lemma {:induction false} TwoListed(dealt: seq<nat>, i: nat, j: nat)
    requires i in dealt && j in dealt && i != j
    ensures |dealt| >= 2
  {
  }

  lemma {:induction false} ReadyListed(seats: seq<Seat>, i: nat)
    requires i < |seats| && seats[i].chips > 0 && !seats[i].sittingOut
    ensures i in DealtInFrom(seats, 0)
  {
  }

  lemma {:induction false} ReadyDealtIn(seats: seq<Seat>)
    requires TwoReady(seats)
    ensures |DealtInFrom(seats, 0)| >= 2
  {
    var i, j :| 0 <= i < j < |seats| && seats[i].chips > 0 && !seats[i].sittingOut && seats[j].chips > 0
      && !seats[j].sittingOut;
    ReadyListed(seats, i);
    ReadyListed(seats, j);
    TwoListed(DealtInFrom(seats, 0), i, j);
  }

  /** A hand starts exactly if two can be dealt in, after a pause at its end, with the countdown before any hand, and
      for the host at any time. If none starts after a pause the table waits again; in no case does a chip move then. */
  lemma {:induction false} DealExactly(t: Table, cue: Cue, shuffled: seq<string>)
    requires Waiting(t)
    ensures var r := Deal(t, cue, shuffled);
      var due := (cue.Pause? ==> t.intermission) && (cue.Countdown? ==> !t.gameStarted);
      if due && TwoReady(t.seats) then r == StartHand(t.(intermission := false), shuffled).0
      else
        && r == t.(intermission := r.intermission, gameStarted := r.gameStarted)
        && (r.intermission <==> t.intermission && !(due && |t.seats| >= 2))
        && (r.gameStarted <==> t.gameStarted && !(due && |t.seats| >= 2 && cue.Pause?))
  {
    StartHandPlays(t.(intermission := false), shuffled);
    if TwoReady(t.seats) {
      ReadyDealtIn(t.seats);
    } else if |DealtInFrom(t.seats, 0)| >= 2 {
      DealtInReady(t.seats);
    }
  }

  // ---- Actions ----

  /** An action is taken exactly in a hand, from the player to act, with one of the five words, and a check only with
      nothing to call; otherwise nothing changes. */
  lemma {:induction false} SubmitExactly(d: Desk, site: Site, user: nat, word: string, amount: int)
    requires DeskFits(d, site) && user < |site.users|
    ensures var t, (r, reply) := d.table.engine, Submit(d, site, user, word, amount);
      && (reply == Done <==>
            && t.gameStarted && !t.gameFinished && ToAct(t, site.users[user].username)
            && (word in {"fold", "call", "raise", "allin"}
                || (word == "check" && t.seats[t.current % |t.seats|].roundBet >= t.currentBet)))
      && (reply != Done ==> r == d)
      && (reply == NotActive <==> !t.gameStarted || t.gameFinished)
      && (reply == NotYourTurn <==>
            && t.gameStarted && !t.gameFinished
            && (t.seats == [] || t.seats[t.current % |t.seats|].name != site.users[user].username))
  {
    var t := d.table.engine;
    HumanActionGate(t, site.users[user].username, word, amount, NO_BOT);
    if t.seats != [] {
      LegalWords(t, Seated(t), word);
    }
  }

  // ---- Who sits out ----

  /** Seats with other stacks, and nothing else changed. */
  predicate Restacked(seats: seq<Seat>, r: seq<Seat>) {
    |r| == |seats| && forall k :: 0 <= k < |seats| ==> r[k] == seats[k].(chips := r[k].chips)
  }

  lemma {:induction false} OnlyStacksRaked(r: Raked, users: seq<User>, house: nat, userIDs: map<string, nat>,
      payouts: seq<Payout>, smallBlind: int, s: Settings)
    requires |r.wallets| == |users| && house < |users| && KnownUsers(userIDs, users)
    ensures Restacked(r.seats, Commission(r, users, house, userIDs, payouts, smallBlind, s).seats)
    decreases |payouts|
  {
    if payouts != [] {
      OnlyStacksRaked(RakeOne(r, users, house, userIDs, payouts[0], smallBlind, s), users, house, userIDs, payouts[1..],
                      smallBlind, s);
    }
  }

  /** When a hand has paid somebody, its payouts are raked off the stacks, and whoever then has no chips is sat out. */
  lemma {:induction false} HandCleared(d: Desk, site: Site, k: nat)
    requires DeskFits(d, site) && k < |d.table.engine.seats| && NoBots(d.table.engine.seats)
    requires d.table.engine.intermission && d.table.engine.payouts != []
    ensures var t, r := d.table.engine, AfterAction(d, site).table.engine;
      && |r.seats| == |t.seats| && r.payouts == [] && r.pot == t.pot
      && r.seats[k]
         == t.seats[k].(chips := r.seats[k].chips, sittingOut := t.seats[k].sittingOut || r.seats[k].chips <= 0)
  {
    var t := d.table.engine;
    OnlyStacksRaked(Raked(d.wallets, t.seats), site.users, site.house, d.table.userIDs, t.payouts, t.smallBlind,
                    site.settings);
    var q := Commission(Raked(d.wallets, t.seats), site.users, site.house, d.table.userIDs, t.payouts, t.smallBlind,
                        site.settings);
    BustedSitOut(q.seats, k);
  }

  /** Whoever lets the clock run out is sat out. */
  lemma {:induction false} AbsentSitsOut(d: Desk, site: Site)
    requires DeskOk(d, site) && Expiring(d.table.engine)
    ensures var t, r := d.table.engine, Expire(d, site).table.engine;
      |r.seats| == |t.seats| && r.seats[t.current % |t.seats|].sittingOut
  {
    var t := d.table.engine;
    var k := Seated(t);
    AgreeingNames(d.table);
    var u := RequestPlays(t, t.seats[k].name, TimeoutAction(t), 0);
    var r := HumanAction(t, t.seats[k].name, TimeoutAction(t), 0, NO_BOT).0;
    SatOutPlayed(t, r, u, k);
    var s := r.(seats := SatOut(r.seats, k));
    Reengined(d.table, site, s);
    if s.intermission && s.payouts != [] {
      HandCleared(d.(table := d.table.(engine := s)), site, k);
    }
  }
}
