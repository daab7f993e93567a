/** The players as objects, and the loops that read and update them. */
module Players {
  import opened Sequences
  import opened Tables
  import opened SidePots
  import opened Showdowns
  import opened ShowdownProofs
  import opened ShowdownSteps
  import opened Betting

  class Player {
    const name: string
    const isBot: bool
    var chips: int
    var roundBet: int
    var totalBet: int
    var folded: bool
    var allIn: bool
    var hasActed: bool
    var isDealer: bool
    var isSmallBlind: bool
    var isBigBlind: bool
    var sittingOut: bool
    var cards: seq<string>

    constructor (name: string, isBot: bool, chips: int)
      ensures Snap() == Seat(name, isBot, chips, 0, 0, false, false, false, false, false, false, false, CARD_BACKS)
    {
      this.name, this.isBot, this.chips := name, isBot, chips;
      roundBet, totalBet, folded, allIn, hasActed := 0, 0, false, false, false;
      isDealer, isSmallBlind, isBigBlind, sittingOut, cards := false, false, false, false, CARD_BACKS;
    }

    /** The player's seat as a value. */
    function Snap(): Seat
      reads this
    {
      Seat(name, isBot, chips, roundBet, totalBet, folded, allIn, hasActed,
           isDealer, isSmallBlind, isBigBlind, sittingOut, cards)
    }

    method PlaceBet(amount: int) returns (actual: int)
      modifies this
      ensures Snap() == Tables.PlaceBet(old(Snap()), amount) && actual == BetSize(old(Snap()), amount)
    {
      actual := amount;
      if actual > chips {
        actual := chips;
      }
      chips := chips - actual;
      roundBet := roundBet + actual;
      totalBet := totalBet + actual;
      if chips == 0 {
        allIn := true;
      }
    }

    /** Ready for the next hand; dealt out without chips or sitting out. */
    method Reset()
      modifies this
      ensures Snap() == ResetSeat(old(Snap()))
    {
      folded := false;
      allIn := false;
      hasActed := false;
      totalBet := 0;
      roundBet := 0;
      cards := CARD_BACKS;
      folded := !(chips > 0 && !sittingOut);
    }
  }

  function Snaps(ps: seq<Player>): (seats: seq<Seat>)
    reads ps
    ensures |seats| == |ps| && forall i :: 0 <= i < |ps| ==> seats[i] == ps[i].Snap()
  {
    seq(|ps|, i requires 0 <= i < |ps| reads ps => ps[i].Snap())
  }

  ghost predicate AllDifferent(ps: seq<Player>) {
    forall i, j :: 0 <= i < j < |ps| ==> ps[i] != ps[j]
  }

  // ---- Loops over the players ----

  method SetHasActed(ps: seq<Player>)
    requires AllDifferent(ps)
    modifies ps
    ensures Snaps(ps) == Map(old(Snaps(ps)), (s: Seat) => s.(hasActed := false))
  {
    for i := 0 to |ps|
      invariant forall j :: 0 <= j < i ==> ps[j].Snap() == old(ps[j].Snap()).(hasActed := false)
      invariant forall j :: i <= j < |ps| ==> ps[j].Snap() == old(ps[j].Snap())
    {
      ps[i].hasActed := false;
    }
  }

  method ClearRoundBets(ps: seq<Player>)
    requires AllDifferent(ps)
    modifies ps
    ensures Snaps(ps) == Map(old(Snaps(ps)), (s: Seat) => s.(roundBet := 0))
  {
    for i := 0 to |ps|
      invariant forall j :: 0 <= j < i ==> ps[j].Snap() == old(ps[j].Snap()).(roundBet := 0)
      invariant forall j :: i <= j < |ps| ==> ps[j].Snap() == old(ps[j].Snap())
    {
      ps[i].roundBet := 0;
    }
  }

  method ReopenOthers(ps: seq<Player>, raiser: string)
    requires AllDifferent(ps)
    modifies ps
    ensures Snaps(ps) == Reopen(old(Snaps(ps)), raiser)
  {
    for i := 0 to |ps|
      invariant forall j :: 0 <= j < i ==> ps[j].Snap() == old(Reopen(Snaps(ps), raiser)[j])
      invariant forall j :: i <= j < |ps| ==> ps[j].Snap() == old(ps[j].Snap())
    {
      var other := ps[i];
      if other.name != raiser && !other.folded && !other.allIn {
        other.hasActed := false;
      }
    }
  }

  // ---- One player among them ----

  method BetAt(ps: seq<Player>, i: nat, amount: int) returns (actual: int)
    requires AllDifferent(ps) && i < |ps|
    modifies ps[i]
    ensures Snaps(ps) == old(Snaps(ps))[i := Tables.PlaceBet(old(Snaps(ps))[i], amount)]
    ensures actual == BetSize(old(Snaps(ps))[i], amount)
  {
    actual := ps[i].PlaceBet(amount);
  }

  method BlindsAt(ps: seq<Player>, sb: nat, bb: nat, small: int, big: int) returns (pot: int)
    requires AllDifferent(ps) && sb < |ps| && bb < |ps|
    modifies ps
    ensures Snaps(ps) == PostedSeats(old(Snaps(ps)), sb, bb, small, big)
    ensures pot == PostedChips(old(Snaps(ps)), sb, bb, small, big)
  {
    var sbAmt := BetAt(ps, sb, small);
    var bbAmt := BetAt(ps, bb, big);
    pot := sbAmt + bbAmt;
  }

  method MarkActedAt(ps: seq<Player>, i: nat)
    requires AllDifferent(ps) && i < |ps|
    modifies ps[i]
    ensures Snaps(ps) == old(Snaps(ps))[i := old(Snaps(ps))[i].(hasActed := true)]
  {
    ps[i].hasActed := true;
  }

  method FoldAt(ps: seq<Player>, i: nat)
    requires AllDifferent(ps) && i < |ps|
    modifies ps[i]
    ensures Snaps(ps) == old(Snaps(ps))[i := old(Snaps(ps))[i].(folded := true)]
  {
    ps[i].folded := true;
  }

  method CreditAt(ps: seq<Player>, i: nat, amount: int)
    requires AllDifferent(ps) && i < |ps|
    modifies ps[i]
    ensures Snaps(ps) == Credit(old(Snaps(ps)), i, amount)
  {
    ps[i].chips := ps[i].chips + amount;
  }

  /** A bet, and the turns it reopens when it is a raise. */
  method CommitSeats(ps: seq<Player>, i: nat, bet: int, needToCall: int) returns (amt: int, roundBet: int)
    requires AllDifferent(ps) && i < |ps|
    modifies ps
    ensures amt == BetSize(old(Snaps(ps))[i], bet) && Snaps(ps) == BetSeats(old(Snaps(ps)), i, bet, needToCall)
    ensures roundBet == old(Snaps(ps))[i].roundBet + amt
  {
    amt := BetAt(ps, i, bet);
    roundBet := ps[i].roundBet;
    if amt > needToCall {
      ReopenOthers(ps, ps[i].name);
    }
  }

  lemma {:induction false} LiveTail(seats: seq<Seat>, k: nat)
    requires k < |seats|
    ensures CountLive(seats[k..]) == (if seats[k].folded then 0 else 1) + CountLive(seats[k + 1..])
    ensures CountActionable(seats[k..]) == (if Actionable(seats[k]) then 1 else 0) + CountActionable(seats[k + 1..])
  {
    assert seats[k..][1..] == seats[k + 1..];
  }

  method CountNotFolded(ps: seq<Player>) returns (n: nat)
    ensures n == CountLive(Snaps(ps))
  {
    n := 0;
    ghost var seats := Snaps(ps);
    assert seats[0..] == seats;
    for k := 0 to |ps|
      invariant n + CountLive(seats[k..]) == CountLive(seats)
    {
      LiveTail(seats, k);
      if !ps[k].folded {
        n := n + 1;
      }
    }
  }

  method CountCanAct(ps: seq<Player>) returns (n: nat)
    ensures n == CountActionable(Snaps(ps))
  {
    n := 0;
    ghost var seats := Snaps(ps);
    assert seats[0..] == seats;
    for k := 0 to |ps|
      invariant n + CountActionable(seats[k..]) == CountActionable(seats)
    {
      LiveTail(seats, k);
      if !ps[k].folded && !ps[k].allIn {
        n := n + 1;
      }
    }
  }

  method HighestLiveBet(ps: seq<Player>) returns (max: int)
    ensures max == MaxLiveBet(Snaps(ps))
  {
    max := 0;
    ghost var seats := Snaps(ps);
    assert seats[0..] == seats;
    MaxNotNegative(seats);
    for k := 0 to |ps|
      invariant MaxLiveBet(seats) == if max > MaxLiveBet(seats[k..]) then max else MaxLiveBet(seats[k..])
      invariant max >= 0
    {
      assert seats[k..][1..] == seats[k + 1..];
      MaxNotNegative(seats[k + 1..]);
      if !ps[k].folded && ps[k].roundBet > max {
        max := ps[k].roundBet;
      }
    }
  }

  lemma {:induction false} MaxNotNegative(seats: seq<Seat>)
    ensures MaxLiveBet(seats) >= 0
  {
    if seats != [] {
      MaxNotNegative(seats[1..]);
    }
  }

  method AllInSettled(ps: seq<Player>) returns (yes: bool)
    ensures yes <==> IsAllInSettled(Snaps(ps))
  {
    var maxBet := HighestLiveBet(ps);
    for k := 0 to |ps|
      invariant forall j :: 0 <= j < k && Actionable(Snaps(ps)[j]) ==> Snaps(ps)[j].roundBet >= maxBet
    {
      if !ps[k].folded && !ps[k].allIn && ps[k].roundBet < maxBet {
        return false;
      }
    }
    return true;
  }

  method FindDealer(ps: seq<Player>) returns (ix: nat)
    ensures ix == DealerIndex(Snaps(ps))
  {
    for k := 0 to |ps|
      invariant forall j :: 0 <= j < k ==> !Snaps(ps)[j].isDealer
    {
      if ps[k].isDealer {
        return k;
      }
    }
    return 0;
  }

  method FindBigBlind(ps: seq<Player>) returns (ix: nat)
    ensures ix == BigBlindIndex(Snaps(ps))
  {
    for k := 0 to |ps|
      invariant forall j :: 0 <= j < k ==> !Snaps(ps)[j].isBigBlind
    {
      if ps[k].isBigBlind {
        return k;
      }
    }
    return 0;
  }

  method FindPlayer(ps: seq<Player>, name: string) returns (ix: nat)
    ensures ix == PlayerNamed(Snaps(ps), name) && ix <= |ps|
  {
    for k := 0 to |ps|
      invariant forall j :: 0 <= j < k ==> !(Snaps(ps)[j].name == name && !Snaps(ps)[j].folded)
    {
      if ps[k].name == name && !ps[k].folded {
        return k;
      }
    }
    return |ps|;
  }

  method ListContributors(ps: seq<Player>) returns (ix: seq<nat>)
    ensures ix == Contributors(Snaps(ps), 0)
  {
    ix := [];
    ghost var seats := Snaps(ps);
    ghost var left := Contributors(seats, 0);
    for k := 0 to |ps|
      invariant left == Contributors(seats, k) && ix + left == Contributors(seats, 0)
    {
      left := Contributors(seats, k + 1);
      Regroup(ix, if seats[k].totalBet > 0 then [k] else [], left);
      if ps[k].totalBet > 0 {
        ix := ix + [k];
      }
    }
  }

  /** The players who take part, by position. */
  method ListDealtIn(ps: seq<Player>) returns (ix: seq<nat>)
    ensures ix == DealtInFrom(Snaps(ps), 0)
  {
    ix := [];
    ghost var seats := Snaps(ps);
    ghost var left := DealtInFrom(seats, 0);
    for k := 0 to |ps|
      invariant left == DealtInFrom(seats, k) && ix + left == DealtInFrom(seats, 0)
    {
      left := DealtInFrom(seats, k + 1);
      Regroup(ix, if DealtIn(seats[k]) then [k] else [], left);
      if ps[k].chips > 0 && !ps[k].sittingOut {
        ix := ix + [k];
      }
    }
  }

  // ---- Between hands ----

  method ResetForHand(ps: seq<Player>)
    requires AllDifferent(ps)
    modifies ps
    ensures Snaps(ps) == Map(old(Snaps(ps)), ResetSeat)
  {
    for i := 0 to |ps|
      invariant forall j :: 0 <= j < i ==> ps[j].Snap() == ResetSeat(old(ps[j].Snap()))
      invariant forall j :: i <= j < |ps| ==> ps[j].Snap() == old(ps[j].Snap())
    {
      ps[i].Reset();
    }
  }

  lemma {:induction false} OneMore(active: seq<Player>, ps: seq<Player>, i: nat)
    requires AllDifferent(ps) && i < |ps|
    requires AllDifferent(active) && forall j :: 0 <= j < |active| ==> active[j] in ps[..i]
    ensures AllDifferent(active + [ps[i]]) && forall j :: 0 <= j < |active + [ps[i]]| ==>
      (active + [ps[i]])[j] in ps[..i + 1]
  {
    forall j | 0 <= j < |active| ensures active[j] != ps[i] && active[j] in ps[..i + 1] {
      var m :| 0 <= m < i && ps[..i][m] == active[j];
      assert ps[..i + 1][m] == active[j];
    }
    assert ps[..i + 1][i] == ps[i];
  }

  lemma {:induction false} SnapsSnoc(ps: seq<Player>, p: Player)
    ensures Snaps(ps + [p]) == Snaps(ps) + [p.Snap()]
  {
  }

  lemma {:induction false} KeepTail(seats: seq<Seat>, i: nat)
    requires i < |seats|
    ensures KeepSeats(seats[i..])
        == (if seats[i].chips > 0 || !seats[i].isBot then [seats[i]] else []) + KeepSeats(seats[i + 1..])
  {
    assert seats[i..][1..] == seats[i + 1..];
  }

  /** Bots without chips leave the table; everyone else stays, in order. */
  method DropBustedBots(ps: seq<Player>) returns (active: seq<Player>)
    requires AllDifferent(ps)
    ensures Snaps(active) == KeepSeats(Snaps(ps))
    ensures AllDifferent(active) && forall i :: 0 <= i < |active| ==> active[i] in ps
  {
    active := [];
    ghost var seats := Snaps(ps);
    ghost var left := KeepSeats(seats);
    assert seats[0..] == seats;
    for i := 0 to |ps|
      invariant AllDifferent(active) && forall j :: 0 <= j < |active| ==> active[j] in ps[..i]
      invariant left == KeepSeats(seats[i..]) && Snaps(active) + left == KeepSeats(seats)
    {
      KeepTail(seats, i);
      left := KeepSeats(seats[i + 1..]);
      Regroup(Snaps(active), [ps[i].Snap()], left);
      if ps[i].chips > 0 || !ps[i].isBot {
        OneMore(active, ps, i);
        SnapsSnoc(active, ps[i]);
        active := active + [ps[i]];
      } else {
        assert forall j :: 0 <= j < i ==> ps[..i][j] == ps[..i + 1][j];
      }
    }
  }

  method NextPlayers(ps: seq<Player>) returns (active: seq<Player>)
    requires AllDifferent(ps)
    modifies ps
    ensures Snaps(active) == KeepSeats(Map(old(Snaps(ps)), ResetSeat))
    ensures AllDifferent(active) && forall i :: 0 <= i < |active| ==> active[i] in ps
  {
    ResetForHand(ps);
    active := DropBustedBots(ps);
  }

  method ClearButtons(ps: seq<Player>)
    requires AllDifferent(ps)
    modifies ps
    ensures Snaps(ps) == NoButtons(old(Snaps(ps)))
  {
    for i := 0 to |ps|
      invariant forall j :: 0 <= j < i ==>
        ps[j].Snap() == old(ps[j].Snap()).(isDealer := false, isSmallBlind := false, isBigBlind := false)
      invariant forall j :: i <= j < |ps| ==> ps[j].Snap() == old(ps[j].Snap())
    {
      ps[i].isDealer, ps[i].isSmallBlind, ps[i].isBigBlind := false, false, false;
    }
  }

  method GiveButtons(ps: seq<Player>, d: nat, sb: nat, bb: nat)
    requires AllDifferent(ps) && d < |ps| && sb < |ps| && bb < |ps|
    modifies ps
    ensures Snaps(ps) == SetButtons(old(Snaps(ps)), d, sb, bb)
  {
    DealerSet(Snaps(ps), d);
    SmallBlindSet(Snaps(ps), d, sb);
    BigBlindSet(Snaps(ps), d, sb, bb);
    ClearButtons(ps);
    MarkDealer(ps, d);
    MarkSmallBlind(ps, sb);
    MarkBigBlind(ps, bb);
  }

  lemma {:induction false} DealerSet(seats: seq<Seat>, d: nat)
    requires d < |seats|
    ensures var a := NoButtons(seats); a[d := a[d].(isDealer := true)] == SetButtons(seats, d, |seats|, |seats|)
  {
  }

  lemma {:induction false} SmallBlindSet(seats: seq<Seat>, d: nat, sb: nat)
    requires sb < |seats|
    ensures var b := SetButtons(seats, d, |seats|, |seats|);
      b[sb := b[sb].(isSmallBlind := true)] == SetButtons(seats, d, sb, |seats|)
  {
  }

  lemma {:induction false} BigBlindSet(seats: seq<Seat>, d: nat, sb: nat, bb: nat)
    requires bb < |seats|
    ensures var c := SetButtons(seats, d, sb, |seats|);
      c[bb := c[bb].(isBigBlind := true)] == SetButtons(seats, d, sb, bb)
  {
  }

  method MarkDealer(ps: seq<Player>, d: nat)
    requires AllDifferent(ps) && d < |ps|
    modifies ps[d]
    ensures Snaps(ps) == old(Snaps(ps))[d := old(Snaps(ps))[d].(isDealer := true)]
  {
    ps[d].isDealer := true;
  }

  method MarkSmallBlind(ps: seq<Player>, sb: nat)
    requires AllDifferent(ps) && sb < |ps|
    modifies ps[sb]
    ensures Snaps(ps) == old(Snaps(ps))[sb := old(Snaps(ps))[sb].(isSmallBlind := true)]
  {
    ps[sb].isSmallBlind := true;
  }

  method MarkBigBlind(ps: seq<Player>, bb: nat)
    requires AllDifferent(ps) && bb < |ps|
    modifies ps[bb]
    ensures Snaps(ps) == old(Snaps(ps))[bb := old(Snaps(ps))[bb].(isBigBlind := true)]
  {
    ps[bb].isBigBlind := true;
  }

  method DealTo(ps: seq<Player>, i: nat, first: string, second: string)
    requires AllDifferent(ps) && i < |ps|
    modifies ps[i]
    ensures Snaps(ps) == old(Snaps(ps))[i := old(Snaps(ps))[i].(cards := [first, second])]
  {
    ps[i].cards := [first, second];
  }

  // ---- Paying out ----

  method PayShares(ps: seq<Player>, winners: seq<nat>, potIndex: int, share: int, paid: seq<Payout>)
    returns (r: seq<Payout>)
    requires AllDifferent(ps) && forall k :: 0 <= k < |winners| ==> winners[k] < |ps|
    modifies ps
    ensures Settled(Snaps(ps), r) == PayEach(Settled(old(Snaps(ps)), paid), winners, potIndex, share)
  {
    r := paid;
    ghost var start := Settled(Snaps(ps), paid);
    ghost var now := start;
    assert winners[0..] == winners;
    for k := 0 to |winners|
      invariant now == Settled(Snaps(ps), r)
      invariant PayEach(now, winners[k..], potIndex, share) == PayEach(start, winners, potIndex, share)
    {
      var w := ps[winners[k]];
      CreditAt(ps, winners[k], share);
      r := r + [Payout(potIndex, w.name, share)];
      assert winners[k..][1..] == winners[k + 1..];
      now := Settled(Snaps(ps), r);
    }
  }

  /** Every live player's cards are decided by the solver. */
  ghost predicate Contestable(seats: seq<Seat>, board: seq<string>) {
    forall i :: 0 <= i < |seats| && !seats[i].folded ==> Decidable(HandOf(seats[i], board))
  }

  method SettleOne(ps: seq<Player>, sp: SidePot, potIndex: int, board: seq<string>, paid: seq<Payout>)
    returns (r: seq<Payout>)
    requires AllDifferent(ps) && Positions(sp.eligible, Snaps(ps)) && Contestable(Snaps(ps), board)
    modifies ps
    ensures Settled(Snaps(ps), r) == SettlePot(Settled(old(Snaps(ps)), paid), sp, potIndex, board)
  {
    var seats := Snaps(ps);
    var eligible := LiveAmong(sp.eligible, seats);
    if |eligible| == 0 {
      return paid;
    }
    if |eligible| == 1 {
      r := PayShares(ps, eligible, potIndex, sp.amount, paid);
      return;
    }
    assert forall k :: 0 <= k < |eligible| ==> eligible[k] in eligible;
    var winners := PotWinners(eligible, seats, board);
    RepeatOn(BestOfLive(eligible, eligible, seats, board), |BestOfLive(eligible, eligible, seats, board)|, seats);
    if |winners| > 0 {
      r := PayShares(ps, winners, potIndex, sp.amount / |winners|, paid);
    } else {
      r := paid;
    }
  }

  method FirstLive(ps: seq<Player>) returns (ix: nat)
    ensures ix == SoleSurvivor(Snaps(ps))
  {
    for k := 0 to |ps|
      invariant forall j :: 0 <= j < k ==> Snaps(ps)[j].folded
    {
      if !ps[k].folded {
        return k;
      }
    }
    return |ps|;
  }

  /** Paying a pot turns no hand into one the solver cannot decide. */
  lemma {:induction false} PotKeepsContest(s: Settled, pot: SidePot, potIndex: int, board: seq<string>)
    requires Positions(pot.eligible, s.seats) && Contestable(s.seats, board)
    ensures Contestable(SettlePot(s, pot, potIndex, board).seats, board)
  {
    SettlePotStacks(s, pot, potIndex, board);
  }

  lemma {:induction false} PayEachStacks(s: Settled, winners: seq<nat>, potIndex: int, share: int)
    requires Positions(winners, s.seats)
    ensures SameButChips(s.seats, PayEach(s, winners, potIndex, share).seats)
    decreases |winners|
  {
    if winners != [] {
      var w := winners[0];
      PayEachStacks(Settled(Credit(s.seats, w, share), s.payouts + [Payout(potIndex, s.seats[w].name, share)]),
                    winners[1..], potIndex, share);
    }
  }

  lemma {:induction false} SettlePotStacks(s: Settled, pot: SidePot, potIndex: int, board: seq<string>)
    requires Positions(pot.eligible, s.seats)
    ensures SameButChips(s.seats, SettlePot(s, pot, potIndex, board).seats)
  {
    var live := LiveOf(pot.eligible, s.seats);
    if |live| == 1 {
      PayEachStacks(s, live, potIndex, pot.amount);
    } else if |live| > 1 {
      var tied := BestOfLive(live, live, s.seats, board);
      RepeatOn(tied, |tied|, s.seats);
      var winners := Repeat(tied, |tied|);
      if winners != [] {
        PayEachStacks(s, winners, potIndex, pot.amount / |winners|);
      }
    }
  }

  method SettleAll(ps: seq<Player>, pots: seq<SidePot>, board: seq<string>) returns (paid: seq<Payout>)
    requires AllDifferent(ps) && PotsOn(pots, Snaps(ps)) && Contestable(Snaps(ps), board)
    modifies ps
    ensures Settled(Snaps(ps), paid) == SettlePots(Settled(old(Snaps(ps)), []), pots, 0, board)
  {
    paid := [];
    ghost var start := Settled(Snaps(ps), []);
    ghost var now := start;
    assert pots[0..] == pots;
    for k := 0 to |pots|
      invariant now == Settled(Snaps(ps), paid)
      invariant Contestable(now.seats, board) && PotsOn(pots[k..], now.seats)
      invariant SettlePots(now, pots[k..], k, board) == SettlePots(start, pots, 0, board)
    {
      paid := SettleOne(ps, pots[k], k, board, paid);
      PotKeepsContest(now, pots[k], k, board);
      now := Settled(Snaps(ps), paid);
      assert pots[k..][1..] == pots[k + 1..];
    }
  }
}
