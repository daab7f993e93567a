/** The service that moves money between wallets and tables, in the loops and branches it does it in. */
module GameService {
  import opened Tables
  import opened Betting
  import opened HandStart
  import opened Wallets
  import opened Seating
  import opened Commissions
  import opened TableMoney

  // ---- Loops over one table's players ----

  method FindSeat(seatIndex: seq<int>, seat: int) returns (ix: nat)
    ensures ix == SeatedAt(seatIndex, seat)
  {
    for i := 0 to |seatIndex|
      invariant forall j :: 0 <= j < i ==> seatIndex[j] != seat
    {
      if seatIndex[i] == seat {
        return i;
      }
    }
    return |seatIndex|;
  }

  method Renumber(seats: seq<Seat>, userIDs: map<string, nat>, before: map<nat, int>)
    returns (seatIndex: seq<int>, userMap: map<nat, int>)
    ensures seatIndex == Numbered(|seats|) && userMap == Remap(seats, userIDs, before, 0)
  {
    seatIndex, userMap := [], before;
    for i := 0 to |seats|
      invariant seatIndex == Numbered(i)
      invariant Remap(seats, userIDs, userMap, i) == Remap(seats, userIDs, before, 0)
    {
      seatIndex := seatIndex + [i];
      if seats[i].name in userIDs {
        userMap := userMap[userIDs[seats[i].name] := i];
      }
    }
  }

  method TakeFromStack(seats: seq<Seat>, name: string, raked: int) returns (r: seq<Seat>)
    ensures r == TakeRake(seats, name, raked)
  {
    r := seats;
    for i := 0 to |seats|
      invariant r == seats && forall j :: 0 <= j < i ==> seats[j].name != name
    {
      if seats[i].name == name {
        var left := seats[i].chips - raked;
        if left < 0 {
          left := 0;
        }
        return seats[i := seats[i].(chips := left)];
      }
    }
  }

  method SitOutWithoutChips(seats: seq<Seat>) returns (r: seq<Seat>)
    ensures r == SitOutBusted(seats)
  {
    r := seats;
    for i := 0 to |seats|
      invariant |r| == |seats|
      invariant forall j :: 0 <= j < i ==> r[j] == SitOutBusted(seats)[j]
      invariant forall j :: i <= j < |seats| ==> r[j] == seats[j]
    {
      if !(seats[i].isBot || seats[i].chips > 0 || seats[i].sittingOut) {
        r := r[i := seats[i].(sittingOut := true)];
      }
    }
  }

  method ActForAbsent(t: Table) returns (action: string)
    requires t.seats != []
    ensures action == TimeoutAction(t)
  {
    if t.seats[t.current % |t.seats|].roundBet >= t.currentBet {
      return "check";
    }
    return "fold";
  }

  class GameService {
    const wallet: WalletService
    var settings: Settings
    var tables: seq<ActiveTable>

    constructor (wallet: WalletService, settings: Settings)
      requires wallet.Valid()
      ensures this.wallet == wallet && this.settings == settings && tables == [] && Valid()
    {
      this.wallet, this.settings, tables := wallet, settings, [];
    }

    ghost predicate Valid()
      reads this, wallet
    {
      && wallet.Valid()
      && forall i :: 0 <= i < |tables| ==>
           KnownUsers(tables[i].userIDs, wallet.users) && |tables[i].seatIndex| == |tables[i].engine.seats|
    }

    ghost function CurrentSite(): Site
      reads this, wallet
    {
      Site(wallet.users, wallet.house, settings)
    }

    ghost function DeskAt(i: nat): Desk
      requires i < |tables|
      reads this, wallet
    {
      Desk(wallet.wallets, tables[i])
    }

    method JoinTable(i: nat, user: nat, quoted: int) returns (reply: Reply)
      requires Valid() && i < |tables| && user < |wallet.users|
      modifies this`tables, wallet`wallets
      ensures |tables| == |old(tables)| && tables == old(tables)[i := tables[i]]
      ensures (DeskAt(i), reply) == Join(old(DeskAt(i)), old(CurrentSite()), user, quoted)
    {
      var table := tables[i];
      if user in table.userMap {
        return AlreadySeated;
      }
      if table.engine.gameStarted && !table.engine.intermission {
        return HandInProgress;
      }
      if |table.engine.seats| >= table.maxPlayers {
        return TableFull;
      }
      var buyInAmount := table.buyIn;
      if buyInAmount <= 0 {
        buyInAmount := STARTING_CHIPS;
      }
      if quoted < buyInAmount {
        return BelowBuyIn;
      }
      var paid := wallet.Debit(user, buyInAmount);
      if !paid {
        return BelowBuyIn;
      }
      tables := tables[i := WithPlayer(table, user, wallet.users[user].username, buyInAmount)];
      return Done;
    }

    method RefillStack(i: nat, user: nat, amount: int) returns (reply: Reply)
      requires Valid() && i < |tables| && user < |wallet.users|
      modifies this`tables, wallet`wallets
      ensures |tables| == |old(tables)| && tables == old(tables)[i := tables[i]]
      ensures (DeskAt(i), reply) == Refill(old(DeskAt(i)), user, amount)
    {
      var table := tables[i];
      if user !in table.userMap {
        return NotSeated;
      }
      var k := FindSeat(table.seatIndex, table.userMap[user]);
      if k == |table.engine.seats| {
        return NotSeated;
      }
      if !table.refillAllowed {
        return RefillDisabled;
      }
      if amount < table.engine.bigBlind {
        return RefillTooSmall;
      }
      if InLiveHand(table.engine, table.engine.seats[k]) {
        return RefillDuringHand;
      }
      if amount <= 0 {
        return InvalidAmount;
      }
      var paid := wallet.Debit(user, amount);
      if !paid {
        return InsufficientBalance;
      }
      tables := tables[i := Reseated(table, k, Refilled(table.engine.seats[k], amount))];
      return Done;
    }

    method LeaveTable(i: nat, user: nat)
      requires Valid() && i < |tables| && user < |wallet.users|
      modifies this`tables, wallet`wallets
      ensures |tables| == |old(tables)| && tables == old(tables)[i := tables[i]]
      ensures DeskAt(i) == Leave(old(DeskAt(i)), user)
    {
      var table := tables[i];
      if user !in table.userMap {
        return;
      }
      var k := FindSeat(table.seatIndex, table.userMap[user]);
      if k == |table.engine.seats| {
        tables := tables[i := table.(userMap := table.userMap - {user})];
        return;
      }
      var remainingChips := table.engine.seats[k].chips;
      var userIDs := table.userIDs - {table.engine.seats[k].name};
      var seats := table.engine.seats[..k] + table.engine.seats[k + 1..];
      var seatIndex, userMap := Renumber(seats, userIDs, table.userMap - {user});
      if remainingChips > 0 {
        wallet.MoveWallet(user, remainingChips);
      }
      var engine := table.engine.(seats := seats, gameStarted := table.engine.gameStarted && |seats| >= 2);
      tables := tables[i := table.(engine := engine, seatIndex := seatIndex, userMap := userMap, userIDs := userIDs)];
    }

    /** Rakes every award and takes the rake off its winner's stack. */
    method HandlePotCommission(table: ActiveTable) returns (seats: seq<Seat>)
      requires wallet.Valid() && KnownUsers(table.userIDs, wallet.users)
      modifies wallet`wallets
      ensures Raked(wallet.wallets, seats)
           == Commission(Raked(old(wallet.wallets), table.engine.seats), wallet.users, wallet.house, table.userIDs,
                         table.engine.payouts, table.engine.smallBlind, settings)
    {
      var payouts, userIDs := table.engine.payouts, table.userIDs;
      seats := table.engine.seats;
      ghost var start := Raked(wallet.wallets, seats);
      assert payouts[0..] == payouts;
      for n := 0 to |payouts|
        invariant wallet.Valid()
        invariant Commission(Raked(wallet.wallets, seats), wallet.users, wallet.house, userIDs, payouts[n..],
                             table.engine.smallBlind, settings)
               == Commission(start, wallet.users, wallet.house, userIDs, payouts, table.engine.smallBlind, settings)
      {
        var payout := payouts[n];
        assert payouts[n..][1..] == payouts[n + 1..];
        if payout.amount > 0 && payout.winner in userIDs {
          var result := wallet.ProcessHandPayout(userIDs[payout.winner], payout.amount, table.engine.smallBlind,
              settings);
          var raked := result.siteRake + result.referralCut;
          if raked > 0 {
            seats := TakeFromStack(seats, payout.winner, raked);
          }
        }
      }
    }

    method SubmitAction(i: nat, user: nat, action: string, amount: int) returns (reply: Reply)
      requires Valid() && i < |tables| && user < |wallet.users|
      modifies this`tables, wallet`wallets
      ensures |tables| == |old(tables)| && tables == old(tables)[i := tables[i]]
      ensures (DeskAt(i), reply) == Submit(old(DeskAt(i)), old(CurrentSite()), user, action, amount)
    {
      var table := tables[i];
      var t := table.engine;
      if !t.gameStarted || t.gameFinished {
        return NotActive;
      }
      if t.seats == [] || t.seats[Seated(t)].name != wallet.users[user].username {
        return NotYourTurn;
      }
      var (r, ok) := HumanAction(t, wallet.users[user].username, action, amount, NO_BOT);
      if !ok {
        return InvalidAction;
      }
      Finish(i, table.(engine := r));
      return Done;
    }

    /** The pause is over, the countdown is, or the host wants a hand. */
    method DealNextHand(i: nat, cue: Cue, shuffled: seq<string>)
      requires Valid() && i < |tables|
      modifies this`tables
      ensures |tables| == |old(tables)| && tables == old(tables)[i := tables[i]]
      ensures tables[i] == old(tables[i]).(engine := Deal(old(tables[i]).engine, cue, shuffled))
    {
      var table := tables[i];
      if !MayDeal(table.engine, cue) {
        return;
      }
      var (engine, ok) := StartHand(table.engine.(intermission := false), shuffled);
      if !ok && cue == Pause {
        engine := engine.(gameStarted := false);
      }
      tables := tables[i := table.(engine := engine)];
    }

    /** The turn clock has run out: a check if that is free, else a fold, and the player sits out. */
    method HandleTurnTimeout(i: nat)
      requires Valid() && i < |tables|
      modifies this`tables, wallet`wallets
      ensures |tables| == |old(tables)| && tables == old(tables)[i := tables[i]]
      ensures DeskAt(i) == Expire(old(DeskAt(i)), old(CurrentSite()))
    {
      var table := tables[i];
      var t := table.engine;
      if !t.gameStarted || t.intermission || t.seats == [] {
        return;
      }
      var k := t.current % |t.seats|;
      if t.seats[k].folded || t.seats[k].allIn {
        return;
      }
      var action := ActForAbsent(t);
      var (r, ok) := HumanAction(t, t.seats[k].name, action, 0, NO_BOT);
      var seats := r.seats;
      if k < |seats| && !seats[k].isBot {
        seats := seats[k := seats[k].(sittingOut := true)];
      }
      Finish(i, table.(engine := r.(seats := seats)));
    }

    /** Stores the table; when the hand is over, after its commission and with the busted sat out. */
    method Finish(i: nat, table: ActiveTable)
      requires Valid() && i < |tables| && KnownUsers(table.userIDs, wallet.users)
      modifies this`tables, wallet`wallets
      ensures |tables| == |old(tables)| && tables == old(tables)[i := tables[i]]
      ensures DeskAt(i) == AfterAction(Desk(old(wallet.wallets), table), old(CurrentSite()))
    {
      if !table.engine.intermission || table.engine.payouts == [] {
        tables := tables[i := table];
        return;
      }
      var raked := HandlePotCommission(table);
      var seats := SitOutWithoutChips(raked);
      tables := tables[i := table.(engine := table.engine.(seats := seats, payouts := []))];
    }
  }
}
