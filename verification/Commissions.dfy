/** The commission on a finished hand: every award is raked, and the rake comes off the winner's stack. */
module Commissions {
  import opened Tables
  import opened SidePots
  import opened SidePotProofs
  import opened Showdowns
  import opened ShowdownProofs
  import opened HandProgress
  import opened HandStart
  import opened Sessions
  import opened Wallets

  datatype Raked = Raked(wallets: seq<int>, seats: seq<Seat>)

  /** The first seat of that name, or the length of the list. */
  function Named(seats: seq<Seat>, name: string): (ix: nat)
    ensures ix <= |seats|
    ensures ix < |seats| ==> seats[ix].name == name
    ensures forall i :: 0 <= i < ix ==> seats[i].name != name
  {
    if seats == [] || seats[0].name == name then 0 else 1 + Named(seats[1..], name)
  }

  /** Takes the rake off a stack, stopping at nothing left. */
  function TakeRake(seats: seq<Seat>, name: string, raked: int): (r: seq<Seat>)
    ensures |r| == |seats|
  {
    var ix := Named(seats, name);
    if ix == |seats| then seats
    else
      var left := seats[ix].chips - raked;
      seats[ix := seats[ix].(chips := if left < 0 then 0 else left)]
  }

  predicate KnownUsers(userIDs: map<string, nat>, users: seq<User>) {
    forall n :: n in userIDs ==> userIDs[n] < |users|
  }

  /** Pays the rake and the cut into wallets, and takes them off the winner's stack. */
  function RakeBy(r: Raked, house: nat, winner: string, result: PayoutResult): (q: Raked)
    requires house < |r.wallets| && (result.referrer.Some? ==> result.referrer.value < |r.wallets|)
    ensures |q.wallets| == |r.wallets| && |q.seats| == |r.seats|
  {
    var raked := result.siteRake + result.referralCut;
    Raked(PaidParts(r.wallets, house, result), if raked <= 0 then r.seats else TakeRake(r.seats, winner, raked))
  }

  function RakeOne(
      r: Raked, users: seq<User>, house: nat, userIDs: map<string, nat>, p: Payout, smallBlind: int,
          s: Settings): (q: Raked)
    requires |r.wallets| == |users| && house < |users| && KnownUsers(userIDs, users)
    ensures |q.wallets| == |r.wallets| && |q.seats| == |r.seats|
  {
    if p.amount <= 0 || p.winner !in userIDs then r
    else RakeBy(r, house, p.winner, Split(users, userIDs[p.winner], p.amount, smallBlind, s))
  }

  function Commission(
      r: Raked, users: seq<User>, house: nat, userIDs: map<string, nat>, payouts: seq<Payout>, smallBlind: int,
          s: Settings):
      (q: Raked)
    requires |r.wallets| == |users| && house < |users| && KnownUsers(userIDs, users)
    ensures |q.wallets| == |r.wallets| && |q.seats| == |r.seats|
    decreases |payouts|
  {
    if payouts == [] then r
    else Commission(RakeOne(r, users, house, userIDs, payouts[0], smallBlind, s), users, house, userIDs, payouts[1..],
        smallBlind, s)
  }

  // ---- The stacks can bear it ----

  /** Every award is to a seated player, is not negative, and is still on the winner's stack. */
  ghost predicate Covered(seats: seq<Seat>, payouts: seq<Payout>) {
    && (forall i :: 0 <= i < |payouts| ==> payouts[i].amount >= 0 && Named(seats, payouts[i].winner) < |seats|)
    && (forall k :: 0 <= k < |seats| ==> seats[k].chips >= PaidTo(payouts, seats[k].name))
  }

  lemma {:induction false} PaidToFits(payouts: seq<Payout>, name: string)
    requires forall i :: 0 <= i < |payouts| ==> payouts[i].amount >= 0
    ensures PaidTo(payouts, name) >= 0
  {
    if payouts != [] {
      PaidToFits(payouts[1..], name);
    }
  }

  lemma {:induction false} NamedSame(a: seq<Seat>, b: seq<Seat>, name: string)
    requires |a| == |b| && forall k :: 0 <= k < |a| ==> b[k].name == a[k].name
    ensures Named(a, name) == Named(b, name)
  {
    if a != [] {
      NamedSame(a[1..], b[1..], name);
    }
  }

  lemma {:induction false} StillNamed(seats: seq<Seat>, r: seq<Seat>, payouts: seq<Payout>)
    requires payouts != [] && Covered(seats, payouts) && SameButChips(seats, r)
    ensures forall i :: 0 <= i < |payouts[1..]| ==>
      payouts[1..][i].amount >= 0 && Named(r, payouts[1..][i].winner) < |r|
  {
    forall i | 0 <= i < |payouts[1..]| ensures payouts[1..][i].amount >= 0 && Named(r, payouts[1..][i].winner) < |r| {
      assert payouts[1..][i] == payouts[i + 1];
      NamedSame(seats, r, payouts[i + 1].winner);
    }
  }

  /** Taking no more than an award off its winner leaves the other awards covered. */
  lemma {:induction false} RestCovered(seats: seq<Seat>, payouts: seq<Payout>, ix: nat, raked: int)
    requires UniqueNames(seats) && payouts != [] && Covered(seats, payouts) && 0 <= raked <= payouts[0].amount
    requires ix == Named(seats, payouts[0].winner)
    ensures Covered(Credit(seats, ix, -raked), payouts[1..]) && SameButChips(seats, Credit(seats, ix, -raked))
  {
    var r := Credit(seats, ix, -raked);
    StillNamed(seats, r, payouts);
    forall k | 0 <= k < |r| ensures r[k].chips >= PaidTo(payouts[1..], r[k].name) {
      assert seats[k].chips >= PaidTo(payouts, seats[k].name);
    }
  }

  /** The stop at zero never takes effect: the whole rake leaves the winner's stack, and only that. */
  lemma {:induction false} RakeTaken(seats: seq<Seat>, payouts: seq<Payout>, raked: int)
    requires UniqueNames(seats) && payouts != [] && Covered(seats, payouts) && 0 <= raked <= payouts[0].amount
    ensures var r := TakeRake(seats, payouts[0].winner, raked);
      && Covered(r, payouts[1..]) && SameButChips(seats, r)
      && SumChips(r) == SumChips(seats) - raked
  {
    var rest, ix := payouts[1..], Named(seats, payouts[0].winner);
    forall i | 0 <= i < |rest| ensures rest[i].amount >= 0 { assert rest[i] == payouts[i + 1]; }
    PaidToFits(rest, payouts[0].winner);
    assert seats[ix].chips >= raked;
    CreditTotal(seats, ix, -raked);
    RestCovered(seats, payouts, ix, raked);
  }

  lemma {:induction false} RakeOneExact(
      r: Raked, users: seq<User>, house: nat, userIDs: map<string, nat>, payouts: seq<Payout>, smallBlind: int,
          s: Settings)
    requires |r.wallets| == |users| && house < |users| && KnownUsers(userIDs, users) && payouts != []
    requires smallBlind >= 0 && InRange(s) && UniqueNames(r.seats) && Covered(r.seats, payouts)
    ensures Moved(r, RakeOne(r, users, house, userIDs, payouts[0], smallBlind, s), payouts[1..])
  {
    var p := payouts[0];
    if p.amount <= 0 || p.winner !in userIDs {
      Untouched(r.seats, payouts);
    } else {
      SplitExact(users, userIDs[p.winner], p.amount, smallBlind, s);
      PartsArrive(r.wallets, users, house, userIDs[p.winner], p.amount, smallBlind, s);
      var result := Split(users, userIDs[p.winner], p.amount, smallBlind, s);
      RakeByExact(r, RakeBy(r, house, p.winner, result), payouts, result.siteRake + result.referralCut);
    }
  }

  /** Chips went from stacks to wallets, none lost, and the awards to come are covered. */
  ghost predicate Moved(r: Raked, q: Raked, payouts: seq<Payout>) {
    && |q.wallets| == |r.wallets|
    && Covered(q.seats, payouts) && SameButChips(r.seats, q.seats)
    && SumChips(q.seats) + SumWallets(q.wallets) == SumChips(r.seats) + SumWallets(r.wallets)
    && forall u :: 0 <= u < |r.wallets| ==> q.wallets[u] >= r.wallets[u]
  }

  lemma {:induction false} RakeByExact(r: Raked, q: Raked, payouts: seq<Payout>, raked: int)
    requires UniqueNames(r.seats) && payouts != [] && Covered(r.seats, payouts) && 0 <= raked <= payouts[0].amount
    requires q.seats == if raked <= 0 then r.seats else TakeRake(r.seats, payouts[0].winner, raked)
    requires |q.wallets| == |r.wallets| && SumWallets(q.wallets) == SumWallets(r.wallets) + raked
    requires forall u :: 0 <= u < |r.wallets| ==> q.wallets[u] >= r.wallets[u]
    ensures Moved(r, q, payouts[1..])
  {
    RakeMoves(r.seats, payouts, raked);
  }

  lemma {:induction false} RakeMoves(seats: seq<Seat>, payouts: seq<Payout>, raked: int)
    requires UniqueNames(seats) && payouts != [] && Covered(seats, payouts) && 0 <= raked <= payouts[0].amount
    ensures var r := if raked <= 0 then seats else TakeRake(seats, payouts[0].winner, raked);
      Covered(r, payouts[1..]) && SameButChips(seats, r) && SumChips(r) == SumChips(seats) - raked
  {
    if raked <= 0 {
      Untouched(seats, payouts);
    } else {
      RakeTaken(seats, payouts, raked);
    }
  }

  lemma {:induction false} Untouched(seats: seq<Seat>, payouts: seq<Payout>)
    requires UniqueNames(seats) && payouts != [] && Covered(seats, payouts)
    ensures Covered(seats, payouts[1..]) && TakeRake(seats, payouts[0].winner, 0) == seats
  {
    var ix := Named(seats, payouts[0].winner);
    PaidToFits(payouts, payouts[0].winner);
    assert seats[ix].chips >= 0;
    assert seats[ix := seats[ix]] == seats;
    RakeTaken(seats, payouts, 0);
  }

  /** Commission moves chips from the table to wallets, and loses none on the way. */
  lemma {:induction false} CommissionExact(
      r: Raked, users: seq<User>, house: nat, userIDs: map<string, nat>, payouts: seq<Payout>, smallBlind: int,
          s: Settings)
    requires |r.wallets| == |users| && house < |users| && KnownUsers(userIDs, users)
    requires smallBlind >= 0 && InRange(s) && UniqueNames(r.seats) && Covered(r.seats, payouts)
    ensures var q := Commission(r, users, house, userIDs, payouts, smallBlind, s);
      && SameButChips(r.seats, q.seats) && (forall k :: 0 <= k < |q.seats| ==> q.seats[k].chips >= 0)
      && SumChips(q.seats) + SumWallets(q.wallets) == SumChips(r.seats) + SumWallets(r.wallets)
      && forall u :: 0 <= u < |users| ==> q.wallets[u] >= r.wallets[u]
    decreases |payouts|
  {
    if payouts != [] {
      RakeOneExact(r, users, house, userIDs, payouts, smallBlind, s);
      var next := RakeOne(r, users, house, userIDs, payouts[0], smallBlind, s);
      CommissionExact(next, users, house, userIDs, payouts[1..], smallBlind, s);
    }
  }

  // ---- What a showdown awards is covered ----

  /** Awards that are not negative and go to seated players. */
  ghost predicate Awards(seats: seq<Seat>, payouts: seq<Payout>) {
    forall i :: 0 <= i < |payouts| ==>
        payouts[i].amount >= 0 && exists k :: 0 <= k < |seats| && seats[k].name == payouts[i].winner
  }

  lemma {:induction false} PayEachAwards(s: Settled, winners: seq<nat>, potIndex: int, share: int)
    requires Positions(winners, s.seats) && share >= 0 && Awards(s.seats, s.payouts)
    ensures var r := PayEach(s, winners, potIndex, share); Awards(r.seats, r.payouts) && SameButChips(s.seats, r.seats)
    decreases |winners|
  {
    if winners != [] {
      var w := winners[0];
      var next := Settled(Credit(s.seats, w, share), s.payouts + [Payout(potIndex, s.seats[w].name, share)]);
      forall i | 0 <= i < |next.payouts|
        ensures next.payouts[i].amount >= 0
             && exists k :: 0 <= k < |next.seats| && next.seats[k].name == next.payouts[i].winner
      {
        if i < |s.payouts| {
          var k :| 0 <= k < |s.seats| && s.seats[k].name == s.payouts[i].winner;
          assert next.seats[k].name == next.payouts[i].winner;
        } else {
          assert next.seats[w].name == next.payouts[i].winner;
        }
      }
      PayEachAwards(next, winners[1..], potIndex, share);
    }
  }

  lemma {:induction false} SettlePotAwards(s: Settled, pot: SidePot, potIndex: int, board: seq<string>)
    requires Positions(pot.eligible, s.seats) && pot.amount >= 0 && Awards(s.seats, s.payouts)
    ensures var r := SettlePot(s, pot, potIndex, board); Awards(r.seats, r.payouts)
  {
    var live := LiveOf(pot.eligible, s.seats);
    if |live| == 1 {
      PayEachAwards(s, live, potIndex, pot.amount);
    } else if |live| > 1 {
      TiedAwards(s, BestOfLive(live, live, s.seats, board), potIndex, pot.amount);
    }
  }

  lemma {:induction false} TiedAwards(s: Settled, tied: seq<nat>, potIndex: int, amount: int)
    requires Positions(tied, s.seats) && amount >= 0 && Awards(s.seats, s.payouts)
    ensures var winners := Repeat(tied, |tied|);
      Positions(winners, s.seats)
      && (winners != [] ==> var r := PayEach(s, winners, potIndex, amount / |winners|); Awards(r.seats, r.payouts))
  {
    RepeatOn(tied, |tied|, s.seats);
    if Repeat(tied, |tied|) != [] {
      SharedAwards(s, Repeat(tied, |tied|), potIndex, amount);
    }
  }

  lemma {:induction false} SharedAwards(s: Settled, winners: seq<nat>, potIndex: int, amount: int)
    requires Positions(winners, s.seats) && winners != [] && amount >= 0 && Awards(s.seats, s.payouts)
    ensures var r := PayEach(s, winners, potIndex, amount / |winners|); Awards(r.seats, r.payouts)
  {
    PayEachAwards(s, winners, potIndex, amount / |winners|);
  }

  lemma {:induction false} SettlePotsAwards(s: Settled, pots: seq<SidePot>, potIndex: int, board: seq<string>)
    requires PotsOn(pots, s.seats) && Awards(s.seats, s.payouts) && forall k :: 0 <= k < |pots| ==> pots[k].amount >= 0
    ensures var r := SettlePots(s, pots, potIndex, board); Awards(r.seats, r.payouts)
    decreases |pots|
  {
    if pots != [] {
      SettlePotAwards(s, pots[0], potIndex, board);
      assert forall k :: 0 <= k < |pots[1..]| ==> pots[1..][k] == pots[k + 1];
      SettlePotsAwards(SettlePot(s, pots[0], potIndex, board), pots[1..], potIndex + 1, board);
    }
  }

  /** What the payouts of a showdown list for a player is on that player's stack. */
  lemma {:induction false} PaidOnStack(u: Table, p: nat)
    requires UniqueNames(u.seats) && BetsFit(u.seats) && StacksFit(u.seats) && p < |u.seats|
    ensures |Showdown(u).seats| == |u.seats|
    ensures Showdown(u).seats[p].chips >= PaidTo(Showdown(u).payouts, Showdown(u).seats[p].name)
  {
    if CountLive(u.seats) == 1 {
      var q := LoneSurvivor(u.seats);
      SurvivorTakesPot(u, q);
      SinglePayout(Payout(0, u.seats[q].name, u.pot), u.seats[p].name);
    } else {
      ShowdownPays(u, p);
    }
  }

  lemma {:induction false} SinglePayout(p: Payout, name: string)
    ensures PaidTo([p], name) == if p.winner == name then p.amount else 0
  {
    assert [p][1..] == [];
  }

  /** The showdown that ends a hand leaves every award covered. */
  lemma {:induction false} ShowdownCovered(u: Table)
    requires UniqueNames(u.seats) && BetsFit(u.seats) && StacksFit(u.seats) && u.pot >= SumTotalBets(u.seats)
    ensures Covered(Showdown(u).seats, Showdown(u).payouts)
  {
    var seats, r := AtShowdown(u), Showdown(u);
    if CountLive(u.seats) == 1 {
      var q := LoneSurvivor(u.seats);
      SurvivorTakesPot(u, q);
      BetsSum(u.seats);
      assert r.seats[q].name == u.seats[q].name;
    } else {
      PotsNonNegative(seats);
      SettlePotsAwards(Settled(seats, []), PotsOf(seats), 0, u.community);
      SameLiveCount(u.seats, seats);
    }
    forall p | 0 <= p < |r.seats| ensures r.seats[p].chips >= PaidTo(r.payouts, r.seats[p].name) {
      SameLength(u);
      PaidOnStack(u, p);
    }
  }
}
