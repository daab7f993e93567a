/** The showdown's books: what each seat gets, and the exact difference between chips bet and chips paid. */
module ShowdownProofs {
  import opened Sequences
  import opened BestHand
  import opened HandOrder
  import opened Tables
  import opened SidePots
  import opened SidePotProofs
  import opened Showdowns

  function SumChips(seats: seq<Seat>): int {
    if seats == [] then 0 else seats[0].chips + SumChips(seats[1..])
  }

  /** What a list of payouts pays to one name. */
  function PaidTo(payouts: seq<Payout>, name: string): int {
    if payouts == [] then 0
    else (if payouts[0].winner == name then payouts[0].amount else 0) + PaidTo(payouts[1..], name)
  }

  ghost predicate UniqueNames(seats: seq<Seat>) {
    forall i, j :: 0 <= i < j < |seats| ==> seats[i].name != seats[j].name
  }

  /** Equal but for the stacks. */
  ghost predicate SameButChips(a: seq<Seat>, b: seq<Seat>) {
    |a| == |b| && forall i :: 0 <= i < |a| ==> b[i] == a[i].(chips := b[i].chips)
  }

  /** A split in `k * k` parts of which each of `k` players gets `k`. */
  function SplitShare(amount: int, k: nat): int {
    if k == 0 then 0 else
      assert k * k > 0;
      k * (amount / (k * k))
  }

  function SplitRest(amount: int, k: nat): int {
    if k == 0 then amount else
      assert k * k > 0;
      amount % (k * k)
  }

  /** What one pot pays a position: a tie of `k` players splits it in `k * k` parts and gives each `k` of them. */
  function PotShare(pot: SidePot, seats: seq<Seat>, board: seq<string>, p: nat): int
    requires Positions(pot.eligible, seats)
  {
    var live := LiveOf(pot.eligible, seats);
    if p !in live then 0
    else if |live| == 1 then pot.amount
    else
      var tied := BestOfLive(live, live, seats, board);
      if p in tied then SplitShare(pot.amount, |tied|) else 0
  }

  /** The chips of a pot that nobody receives: a folded-out layer, or the remainder of a split. */
  function Undistributed(pot: SidePot, seats: seq<Seat>, board: seq<string>): int
    requires Positions(pot.eligible, seats)
  {
    var live := LiveOf(pot.eligible, seats);
    if live == [] then pot.amount
    else if |live| == 1 then 0
    else SplitRest(pot.amount, |BestOfLive(live, live, seats, board)|)
  }

  function ShareOfPots(pots: seq<SidePot>, seats: seq<Seat>, board: seq<string>, p: nat): int
    requires PotsOn(pots, seats)
  {
    if pots == [] then 0 else PotShare(pots[0], seats, board, p) + ShareOfPots(pots[1..], seats, board, p)
  }

  function UndistributedOf(pots: seq<SidePot>, seats: seq<Seat>, board: seq<string>): int
    requires PotsOn(pots, seats)
  {
    if pots == [] then 0 else Undistributed(pots[0], seats, board) + UndistributedOf(pots[1..], seats, board)
  }

  // ---- A best hand exists ----

  lemma {:induction false} SomeoneIsBest(among: seq<nat>, seats: seq<Seat>, board: seq<string>) returns (p: nat)
    requires among != [] && Positions(among, seats)
    ensures p in among && Unbeatable(p, among, seats, board)
  {
    var es := seq(|among|, i requires 0 <= i < |among| => Strength(HandOf(seats[among[i]], board)));
    BestOfIsMaximum(es);
    var i :| 0 <= i < |es| && es[i] == BestOf(es);
    p := among[i];
    assert forall k :: 0 <= k < |among| ==> es[k] in es && Strength(HandOf(seats[among[k]], board)) == es[k];
  }

  // ---- Paying out ----

  /** What position `p` collects from a payout list. */
  function Gain(winners: seq<nat>, p: nat, share: int): int {
    if winners == [] then 0 else (if winners[0] == p then share else 0) + Gain(winners[1..], p, share)
  }

  lemma {:induction false} PaidToSnoc(payouts: seq<Payout>, last: Payout, name: string)
    ensures PaidTo(payouts + [last], name) == PaidTo(payouts, name) + if last.winner == name then last.amount else 0
  {
    if payouts == [] {
      assert payouts + [last] == [last];
    } else {
      PaidToSnoc(payouts[1..], last, name);
      assert (payouts + [last])[1..] == payouts[1..] + [last];
    }
  }

  /** Every seat gains its share, on its stack and in the payout list alike; nothing else changes. */
  ghost predicate Paid(s: Settled, r: Settled, gain: nat -> int) {
    && SameButChips(s.seats, r.seats)
    && forall p: nat :: p < |s.seats| ==>
         && r.seats[p].chips == s.seats[p].chips + gain(p)
         && PaidTo(r.payouts, s.seats[p].name) == PaidTo(s.payouts, s.seats[p].name) + gain(p)
  }

  lemma {:induction false} PayEachPays(s: Settled, winners: seq<nat>, potIndex: int, share: int)
    requires Positions(winners, s.seats) && UniqueNames(s.seats)
    ensures Paid(s, PayEach(s, winners, potIndex, share), (p: nat) => Gain(winners, p, share))
    decreases |winners|
  {
    if winners != [] {
      var w := winners[0];
      var next := Settled(Credit(s.seats, w, share), s.payouts + [Payout(potIndex, s.seats[w].name, share)]);
      forall p: nat | p < |s.seats| ensures PaidTo(next.payouts, s.seats[p].name)
          == PaidTo(s.payouts, s.seats[p].name) + if w == p then share else 0 {
        PaidToSnoc(s.payouts, Payout(potIndex, s.seats[w].name, share), s.seats[p].name);
      }
      PayEachPays(next, winners[1..], potIndex, share);
    }
  }

  lemma {:induction false} GainOutside(winners: seq<nat>, p: nat, share: int)
    requires p !in winners
    ensures Gain(winners, p, share) == 0
  {
    if winners != [] {
      GainOutside(winners[1..], p, share);
    }
  }

  lemma {:induction false} GainOnce(winners: seq<nat>, p: nat, share: int)
    requires Distinct(winners)
    ensures Gain(winners, p, share) == if p in winners then share else 0
  {
    if winners != [] {
      GainOnce(winners[1..], p, share);
    }
  }

  lemma {:induction false} GainAppend(a: seq<nat>, b: seq<nat>, p: nat, share: int)
    ensures Gain(a + b, p, share) == Gain(a, p, share) + Gain(b, p, share)
  {
    if a == [] {
      assert a + b == b;
    } else {
      GainAppend(a[1..], b, p, share);
      assert (a + b)[1..] == a[1..] + b;
    }
  }

  lemma {:induction false} GainRepeated(tied: seq<nat>, k: nat, p: nat, share: int)
    requires Distinct(tied)
    ensures Gain(Repeat(tied, k), p, share) == if p in tied then k * share else 0
  {
    if k > 0 {
      GainRepeated(tied, k - 1, p, share);
      GainOnce(tied, p, share);
      GainAppend(tied, Repeat(tied, k - 1), p, share);
      assert k * share == (k - 1) * share + share;
    }
  }

  lemma {:induction false} BestDistinct(among: seq<nat>, live: seq<nat>, seats: seq<Seat>, board: seq<string>)
    requires Positions(among, seats) && Positions(live, seats) && Distinct(among)
    ensures Distinct(BestOfLive(among, live, seats, board))
  {
    if among != [] {
      BestDistinct(among[1..], live, seats, board);
    }
  }

  /** One pot pays every position its share. */
  lemma {:induction false} SettlePotPays(s: Settled, pot: SidePot, potIndex: int, board: seq<string>)
    requires Positions(pot.eligible, s.seats) && Distinct(pot.eligible) && UniqueNames(s.seats)
    ensures Paid(s, SettlePot(s, pot, potIndex, board), (p: nat) => PotShare(pot, s.seats, board, p))
  {
    var live := LiveOf(pot.eligible, s.seats);
    if |live| == 1 {
      SolePays(s, pot, potIndex, board);
    } else if live != [] {
      ContestedPays(s, pot, potIndex, board);
    }
  }

  lemma {:induction false} SolePays(s: Settled, pot: SidePot, potIndex: int, board: seq<string>)
    requires Positions(pot.eligible, s.seats) && Distinct(pot.eligible) && UniqueNames(s.seats)
    requires |LiveOf(pot.eligible, s.seats)| == 1
    ensures Paid(s, SettlePot(s, pot, potIndex, board), (p: nat) => PotShare(pot, s.seats, board, p))
  {
    var live := LiveOf(pot.eligible, s.seats);
    LiveDistinct(pot.eligible, s.seats);
    PayEachPays(s, live, potIndex, pot.amount);
    forall p: nat { GainOnce(live, p, pot.amount); }
  }

  lemma {:induction false} ContestedPays(s: Settled, pot: SidePot, potIndex: int, board: seq<string>)
    requires Positions(pot.eligible, s.seats) && Distinct(pot.eligible) && UniqueNames(s.seats)
    requires |LiveOf(pot.eligible, s.seats)| > 1
    ensures Paid(s, SettlePot(s, pot, potIndex, board), (p: nat) => PotShare(pot, s.seats, board, p))
  {
    var live := LiveOf(pot.eligible, s.seats);
    LiveDistinct(pot.eligible, s.seats);
    var tied := BestOfLive(live, live, s.seats, board);
    var best := SomeoneIsBest(live, s.seats, board);
    BestDistinct(live, live, s.seats, board);
    TiedSettles(s, pot, potIndex, board, live, tied);
  }

  lemma {:induction false} TiedSettles(s: Settled, pot: SidePot, potIndex: int, board: seq<string>, live: seq<nat>,
      tied: seq<nat>)
    requires Positions(pot.eligible, s.seats) && UniqueNames(s.seats)
    requires live == LiveOf(pot.eligible, s.seats) && |live| > 1 && tied == BestOfLive(live, live, s.seats, board)
    requires Positions(tied, s.seats) && Distinct(tied) && tied != []
    ensures Paid(s, SettlePot(s, pot, potIndex, board), (p: nat) => PotShare(pot, s.seats, board, p))
  {
    TiedPays(s, tied, potIndex, pot.amount);
    var winners := Repeat(tied, |tied|);
    var r := PayEach(s, winners, potIndex, pot.amount / |winners|);
    SettlesTied(s, pot, potIndex, board);
    var split := (p: nat) => if p in tied then SplitShare(pot.amount, |tied|) else 0;
    var share := (p: nat) => PotShare(pot, s.seats, board, p);
    forall p: nat ensures split(p) == share(p) {
      ShareTied(pot, s.seats, board, p);
    }
    PaidAs(s, r, split, share);
  }

  lemma {:induction false} ShareTied(pot: SidePot, seats: seq<Seat>, board: seq<string>, p: nat)
    requires Positions(pot.eligible, seats) && |LiveOf(pot.eligible, seats)| > 1
    ensures var live := LiveOf(pot.eligible, seats);
      var tied := BestOfLive(live, live, seats, board);
      PotShare(pot, seats, board, p) == if p in tied then SplitShare(pot.amount, |tied|) else 0
  {
  }

  lemma {:induction false} SettlesTied(s: Settled, pot: SidePot, potIndex: int, board: seq<string>)
    requires Positions(pot.eligible, s.seats) && |LiveOf(pot.eligible, s.seats)| > 1
    ensures var live := LiveOf(pot.eligible, s.seats);
      var tied := BestOfLive(live, live, s.seats, board);
      var winners := Repeat(tied, |tied|);
      && Positions(winners, s.seats)
      && SettlePot(s, pot, potIndex, board)
         == if winners == [] then s else PayEach(s, winners, potIndex, pot.amount / |winners|)
  {
    var live := LiveOf(pot.eligible, s.seats);
    RepeatOn(BestOfLive(live, live, s.seats, board), |BestOfLive(live, live, s.seats, board)|, s.seats);
  }

  lemma {:induction false} PaidAs(s: Settled, r: Settled, gain: nat -> int, same: nat -> int)
    requires Paid(s, r, gain) && forall p: nat :: gain(p) == same(p)
    ensures Paid(s, r, same)
  {
  }

  /** A split in `k * k` parts, `k` of them for each of the `k` tied. */
  lemma {:induction false} TiedPays(s: Settled, tied: seq<nat>, potIndex: int, amount: int)
    requires Positions(tied, s.seats) && Distinct(tied) && tied != [] && UniqueNames(s.seats)
    ensures var winners := Repeat(tied, |tied|);
      && Positions(winners, s.seats) && winners != []
      && Paid(s, PayEach(s, winners, potIndex, amount / |winners|),
              (p: nat) => if p in tied then SplitShare(amount, |tied|) else 0)
  {
    var k := |tied|;
    RepeatOn(tied, k, s.seats);
    assert k * k > 0;
    var share := amount / (k * k);
    PayEachPays(s, Repeat(tied, k), potIndex, share);
    forall p: nat { GainRepeated(tied, k, p, share); }
  }

  // ---- Paying out does not change who wins the next pot ----

  lemma {:induction false} SameLivePlayers(ix: seq<nat>, a: seq<Seat>, b: seq<Seat>)
    requires SameButChips(a, b) && Positions(ix, a)
    ensures Positions(ix, b) && LiveOf(ix, a) == LiveOf(ix, b)
  {
    if ix != [] {
      SameLivePlayers(ix[1..], a, b);
    }
  }

  lemma {:induction false} SameBest(among: seq<nat>, live: seq<nat>, a: seq<Seat>, b: seq<Seat>, board: seq<string>)
    requires SameButChips(a, b) && Positions(among, a) && Positions(live, a)
    ensures Positions(among, b) && Positions(live, b)
    ensures BestOfLive(among, live, a, board) == BestOfLive(among, live, b, board)
  {
    if among != [] {
      SameBest(among[1..], live, a, b, board);
      SameVerdict(among[0], live, a, b, board);
    }
  }

  lemma {:induction false} SameVerdict(p: nat, live: seq<nat>, a: seq<Seat>, b: seq<Seat>, board: seq<string>)
    requires SameButChips(a, b) && p < |a| && Positions(live, a)
    ensures Positions(live, b) && (Unbeatable(p, live, a, board) <==> Unbeatable(p, live, b, board))
  {
    assert forall q: nat :: q < |a| ==> HandOf(a[q], board) == HandOf(b[q], board);
  }

  lemma {:induction false} SamePotShare(pot: SidePot, a: seq<Seat>, b: seq<Seat>, board: seq<string>, p: nat)
    requires SameButChips(a, b) && Positions(pot.eligible, a)
    ensures Positions(pot.eligible, b) && PotShare(pot, a, board, p) == PotShare(pot, b, board, p)
    ensures Undistributed(pot, a, board) == Undistributed(pot, b, board)
  {
    var live := LiveOf(pot.eligible, a);
    SameLivePlayers(pot.eligible, a, b);
    SameBest(live, live, a, b, board);
  }

  lemma {:induction false} SameShares(pots: seq<SidePot>, a: seq<Seat>, b: seq<Seat>, board: seq<string>, p: nat)
    requires SameButChips(a, b) && PotsOn(pots, a)
    ensures PotsOn(pots, b) && ShareOfPots(pots, a, board, p) == ShareOfPots(pots, b, board, p)
  {
    forall k | 0 <= k < |pots| ensures Positions(pots[k].eligible, b) {
      SamePotShare(pots[k], a, b, board, p);
    }
    if pots != [] {
      SameShares(pots[1..], a, b, board, p);
      SamePotShare(pots[0], a, b, board, p);
    }
  }

  /** All the pots together pay every position the sum of its shares. */
  lemma {:induction false} SettlePotsPay(s: Settled, pots: seq<SidePot>, potIndex: int, board: seq<string>)
    requires PotsOn(pots, s.seats) && UniqueNames(s.seats)
    requires forall k :: 0 <= k < |pots| ==> Distinct(pots[k].eligible)
    ensures Paid(s, SettlePots(s, pots, potIndex, board), (p: nat) => ShareOfPots(pots, s.seats, board, p))
    decreases |pots|
  {
    if pots != [] {
      var next, rest := SettlePot(s, pots[0], potIndex, board), pots[1..];
      SettlePotPays(s, pots[0], potIndex, board);
      assert forall k :: 0 <= k < |rest| ==> rest[k] == pots[k + 1];
      SettlePotsPay(next, rest, potIndex + 1, board);
      forall p: nat | p < |s.seats|
        ensures ShareOfPots(rest, s.seats, board, p) == ShareOfPots(rest, next.seats, board, p)
      {
        SameShares(rest, s.seats, next.seats, board, p);
      }
    }
  }

  // ---- Totals ----

  lemma {:induction false} CreditTotal(seats: seq<Seat>, p: nat, amount: int)
    requires p < |seats|
    ensures SumChips(Credit(seats, p, amount)) == SumChips(seats) + amount
  {
    var r := Credit(seats, p, amount);
    if p > 0 {
      assert r[1..] == Credit(seats[1..], p - 1, amount);
      CreditTotal(seats[1..], p - 1, amount);
    } else {
      assert r[1..] == seats[1..];
    }
  }

  lemma {:induction false} PayEachTotal(s: Settled, winners: seq<nat>, potIndex: int, share: int)
    requires Positions(winners, s.seats)
    ensures SumChips(PayEach(s, winners, potIndex, share).seats) == SumChips(s.seats) + |winners| * share
    decreases |winners|
  {
    if winners != [] {
      var w := winners[0];
      CreditTotal(s.seats, w, share);
      var next := Settled(Credit(s.seats, w, share), s.payouts + [Payout(potIndex, s.seats[w].name, share)]);
      PayEachTotal(next, winners[1..], potIndex, share);
      assert |winners| * share == (|winners| - 1) * share + share;
    }
  }

  /** A pot adds to the stacks all of its chips but the undistributed ones. */
  lemma {:induction false} SettlePotTotal(s: Settled, pot: SidePot, potIndex: int, board: seq<string>)
    requires Positions(pot.eligible, s.seats)
    ensures SumChips(SettlePot(s, pot, potIndex, board).seats)
         == SumChips(s.seats) + pot.amount - Undistributed(pot, s.seats, board)
  {
    var live := LiveOf(pot.eligible, s.seats);
    if |live| == 1 {
      PayEachTotal(s, live, potIndex, pot.amount);
    } else if live != [] {
      var tied := BestOfLive(live, live, s.seats, board);
      var best := SomeoneIsBest(live, s.seats, board);
      SplitTotal(s, tied, potIndex, pot.amount);
    }
  }

  lemma {:induction false} SplitTotal(s: Settled, tied: seq<nat>, potIndex: int, amount: int)
    requires Positions(tied, s.seats) && tied != []
    ensures var k := |tied|;
      && Positions(Repeat(tied, k), s.seats) && |Repeat(tied, k)| == k * k > 0
      && SumChips(PayEach(s, Repeat(tied, k), potIndex, amount / (k * k)).seats)
         == SumChips(s.seats) + amount - SplitRest(amount, k)
  {
    var k := |tied|;
    RepeatOn(tied, k, s.seats);
    SplitParts(amount, k);
    PayEachTotal(s, Repeat(tied, k), potIndex, amount / (k * k));
  }

  lemma {:induction false} SplitParts(amount: int, k: nat)
    requires k > 0
    ensures k * k > 0 && (k * k) * (amount / (k * k)) == amount - SplitRest(amount, k)
  {
    assert k * k > 0;
    assert amount == (k * k) * (amount / (k * k)) + amount % (k * k);
  }

  lemma {:induction false} SettlePotsTotal(s: Settled, pots: seq<SidePot>, potIndex: int, board: seq<string>)
    requires PotsOn(pots, s.seats) && UniqueNames(s.seats)
    requires forall k :: 0 <= k < |pots| ==> Distinct(pots[k].eligible)
    ensures SumChips(SettlePots(s, pots, potIndex, board).seats)
         == SumChips(s.seats) + Total(pots) - UndistributedOf(pots, s.seats, board)
    decreases |pots|
  {
    if pots != [] {
      var next, rest := SettlePot(s, pots[0], potIndex, board), pots[1..];
      SettlePotPays(s, pots[0], potIndex, board);
      SettlePotTotal(s, pots[0], potIndex, board);
      assert forall k :: 0 <= k < |rest| ==> rest[k] == pots[k + 1];
      SettlePotsTotal(next, rest, potIndex + 1, board);
      SameUndistributed(rest, s.seats, next.seats, board);
    }
  }

  lemma {:induction false} SameUndistributed(pots: seq<SidePot>, a: seq<Seat>, b: seq<Seat>, board: seq<string>)
    requires SameButChips(a, b) && PotsOn(pots, a)
    ensures PotsOn(pots, b) && UndistributedOf(pots, a, board) == UndistributedOf(pots, b, board)
  {
    forall k | 0 <= k < |pots| ensures Positions(pots[k].eligible, b) {
      SamePotShare(pots[k], a, b, board, 0);
    }
    if pots != [] {
      SameUndistributed(pots[1..], a, b, board);
      SamePotShare(pots[0], a, b, board, 0);
    }
  }

  // ---- Which layers are folded out ----

  /** The remainders of the contested pots' splits. */
  function Remainders(pots: seq<SidePot>, seats: seq<Seat>, board: seq<string>): int
    requires PotsOn(pots, seats)
  {
    if pots == [] then 0
    else
      (if LiveOf(pots[0].eligible, seats) == [] then 0 else Undistributed(pots[0], seats, board))
      + Remainders(pots[1..], seats, board)
  }

  /** The largest total bet of a live player. */
  function TopLiveBet(seats: seq<Seat>): int {
    if seats == [] then 0
    else
      var rest := TopLiveBet(seats[1..]);
      if !seats[0].folded && seats[0].totalBet > rest then seats[0].totalBet else rest
  }

  lemma {:induction false} TopLiveBetBounds(seats: seq<Seat>)
    ensures TopLiveBet(seats) >= 0
    ensures forall i :: 0 <= i < |seats| && !seats[i].folded ==> seats[i].totalBet <= TopLiveBet(seats)
    ensures TopLiveBet(seats) > 0 ==>
              exists m: nat :: m < |seats| && !seats[m].folded && seats[m].totalBet == TopLiveBet(seats)
  {
    if seats != [] {
      var rest := seats[1..];
      TopLiveBetBounds(rest);
      assert forall i :: 1 <= i < |seats| ==> seats[i] == rest[i - 1];
      if TopLiveBet(seats) > 0 {
        if TopLiveBet(seats) == TopLiveBet(rest) {
          var m: nat :| m < |rest| && !rest[m].folded && rest[m].totalBet == TopLiveBet(rest);
          assert seats[m + 1] == rest[m];
        } else {
          assert seats[0].totalBet == TopLiveBet(seats);
        }
      }
    }
  }

  /** The top live player is in for every pot that anyone live is in for. */
  lemma {:induction false} FoldedOut(pots: seq<SidePot>, all: seq<nat>, seats: seq<Seat>, board: seq<string>, m: nat)
    requires Positions(all, seats) && PotsOn(pots, seats) && Sound(pots, all, seats)
    requires m in all && !seats[m].folded && seats[m].totalBet == TopLiveBet(seats)
    ensures UndistributedOf(pots, seats, board)
         == Total(pots) - EligibleFor(pots, seats, m) + Remainders(pots, seats, board)
  {
    if pots != [] {
      FoldedOut(pots[1..], all, seats, board, m);
      TopLiveBetBounds(seats);
      var live := LiveOf(pots[0].eligible, seats);
      if live != [] {
        assert live[0] in live;
        assert m in pots[0].eligible;
      }
    }
  }

  /** When no live player has bet, nothing is distributed. */
  lemma {:induction false} AllFoldedOut(pots: seq<SidePot>, all: seq<nat>, seats: seq<Seat>, board: seq<string>)
    requires Positions(all, seats) && PotsOn(pots, seats) && Sound(pots, all, seats)
    requires TopLiveBet(seats) == 0 && forall x :: x in all ==> seats[x].totalBet > 0
    ensures UndistributedOf(pots, seats, board) == Total(pots) && Remainders(pots, seats, board) == 0
  {
    if pots != [] {
      AllFoldedOut(pots[1..], all, seats, board);
      TopLiveBetBounds(seats);
      NobodyLive(pots[0].eligible, seats);
    }
  }

  lemma {:induction false} NobodyLive(ix: seq<nat>, seats: seq<Seat>)
    requires Positions(ix, seats) && forall x :: x in ix ==> seats[x].folded
    ensures LiveOf(ix, seats) == []
  {
    if ix != [] {
      NobodyLive(ix[1..], seats);
    }
  }

  /** What stays undistributed: the bets above the top live bet, and the remainders of splits. */
  lemma {:induction false} UndistributedExactly(seats: seq<Seat>, board: seq<string>)
    requires BetsFit(seats)
    ensures UndistributedOf(PotsOf(seats), seats, board)
         == SumTotalBets(seats) - Capped(seats, TopLiveBet(seats)) + Remainders(PotsOf(seats), seats, board)
  {
    var pots := PotsOf(seats);
    var sorted := SortedContributors(seats);
    SidePotsComplete(seats);
    TopLiveBetBounds(seats);
    if TopLiveBet(seats) > 0 {
      var m: nat :| m < |seats| && !seats[m].folded && seats[m].totalBet == TopLiveBet(seats);
      FoldedOut(pots, sorted, seats, board, m);
      SidePotFairness(seats, m);
    } else {
      AllFoldedOut(pots, sorted, seats, board);
      CappedAtZero(seats);
    }
  }

  lemma {:induction false} SoundDistinct(pots: seq<SidePot>, all: seq<nat>, seats: seq<Seat>)
    requires Positions(all, seats) && Sound(pots, all, seats)
    ensures forall k :: 0 <= k < |pots| ==> Distinct(pots[k].eligible)
  {
    if pots != [] {
      SoundDistinct(pots[1..], all, seats);
    }
  }

  // ---- The showdown of a table ----

  function AtShowdown(t: Table): (seats: seq<Seat>)
    ensures |seats| == |t.seats|
    ensures forall i :: 0 <= i < |seats| ==> seats[i] == t.seats[i].(roundBet := 0)
  {
    Map(t.seats, (s: Seat) => s.(roundBet := 0))
  }

  /** With more or fewer than one live player the pots are shared out. */
  lemma {:induction false} SharedOut(t: Table)
    requires CountLive(t.seats) != 1
    ensures var r := SettlePots(Settled(AtShowdown(t), []), PotsOf(AtShowdown(t)), 0, t.community);
      Showdown(t).seats == r.seats && Showdown(t).payouts == r.payouts
  {
    SameLiveCount(t.seats, AtShowdown(t));
  }

  lemma {:induction false} PotsPay(seats: seq<Seat>, board: seq<string>, p: nat)
    requires BetsFit(seats) && UniqueNames(seats) && p < |seats|
    ensures var r := SettlePots(Settled(seats, []), PotsOf(seats), 0, board);
      && |r.seats| == |seats|
      && r.seats[p] == seats[p].(chips := seats[p].chips + ShareOfPots(PotsOf(seats), seats, board, p))
      && PaidTo(r.payouts, seats[p].name) == ShareOfPots(PotsOf(seats), seats, board, p)
  {
    PotsDistinct(seats);
    SettlePotsPay(Settled(seats, []), PotsOf(seats), 0, board);
  }

  lemma {:induction false} PotsDistinct(seats: seq<Seat>)
    requires BetsFit(seats)
    ensures PotsOn(PotsOf(seats), seats) && forall k :: 0 <= k < |PotsOf(seats)| ==> Distinct(PotsOf(seats)[k].eligible)
  {
    SidePotsComplete(seats);
    var sorted := SortedContributors(seats);
    SoundDistinct(PotsOf(seats), sorted, seats);
  }

  /** Every seat's stack grows by its shares, which are also what the payouts list for it. */
  lemma {:induction false} ShowdownPays(t: Table, p: nat)
    requires BetsFit(t.seats) && UniqueNames(t.seats) && CountLive(t.seats) != 1 && p < |t.seats|
    ensures var seats, r := AtShowdown(t), Showdown(t);
      && |r.seats| == |seats|
      && r.seats[p] == seats[p].(chips := seats[p].chips + ShareOfPots(PotsOf(seats), seats, t.community, p))
      && PaidTo(r.payouts, seats[p].name) == ShareOfPots(PotsOf(seats), seats, t.community, p)
  {
    SharedOut(t);
    PotsPay(AtShowdown(t), t.community, p);
  }

  lemma {:induction false} SameLiveCount(a: seq<Seat>, b: seq<Seat>)
    requires |a| == |b| && forall i :: 0 <= i < |a| ==> a[i].folded == b[i].folded
    ensures CountLive(a) == CountLive(b)
  {
    if a != [] {
      SameLiveCount(a[1..], b[1..]);
    }
  }

  lemma {:induction false} ShowdownTotal(t: Table)
    requires BetsFit(t.seats) && UniqueNames(t.seats) && CountLive(t.seats) != 1
    ensures var seats := AtShowdown(t);
      SumChips(Showdown(t).seats)
        == SumChips(seats) + SumTotalBets(seats) - UndistributedOf(PotsOf(seats), seats, t.community)
  {
    var seats := AtShowdown(t);
    var pots := PotsOf(seats);
    var sorted := SortedContributors(seats);
    SidePotsComplete(seats);
    SoundDistinct(pots, sorted, seats);
    SettlePotsTotal(Settled(seats, []), pots, 0, t.community);
    SameLiveCount(t.seats, seats);
  }

  /** Paid out at a showdown: everyone's bet up to the top live bet, less the split remainders. */
  lemma {:induction false} ShowdownAccounting(t: Table)
    requires BetsFit(t.seats) && UniqueNames(t.seats) && CountLive(t.seats) != 1
    ensures var seats := AtShowdown(t);
      SumChips(Showdown(t).seats)
        == SumChips(t.seats) + Capped(t.seats, TopLiveBet(t.seats)) - Remainders(PotsOf(seats), seats, t.community)
    ensures SumChips(Showdown(t).seats) <= SumChips(t.seats) + SumTotalBets(t.seats)
  {
    var seats := AtShowdown(t);
    ShowdownTotal(t);
    UndistributedExactly(seats, t.community);
    SameTop(t.seats, seats);
    SameStacks(t.seats, seats, TopLiveBet(t.seats));
    PotsNonNegative(seats);
    RemaindersFit(PotsOf(seats), seats, t.community);
    CappedWithin(seats, TopLiveBet(seats));
  }

  lemma {:induction false} SameTop(a: seq<Seat>, b: seq<Seat>)
    requires |a| == |b| && forall i :: 0 <= i < |a| ==> a[i].folded == b[i].folded && a[i].totalBet == b[i].totalBet
    ensures TopLiveBet(a) == TopLiveBet(b)
  {
    if a != [] {
      SameTop(a[1..], b[1..]);
    }
  }

  lemma {:induction false} CappedWithin(seats: seq<Seat>, cap: int)
    ensures Capped(seats, cap) <= SumTotalBets(seats)
  {
    if seats != [] {
      CappedWithin(seats[1..], cap);
    }
  }

  lemma {:induction false} LayersPositive(sorted: seq<nat>, seats: seq<Seat>, prev: int)
    requires Positions(sorted, seats)
    ensures forall k :: 0 <= k < |Layers(sorted, seats, prev)| ==> Layers(sorted, seats, prev)[k].amount >= 0
  {
    if sorted != [] {
      LayersPositive(sorted[1..], seats, seats[sorted[0]].totalBet);
      LayersPositive(sorted[1..], seats, prev);
    }
  }

  lemma {:induction false} MergePositive(head: SidePot, rest: seq<SidePot>, seats: seq<Seat>)
    requires Positions(head.eligible, seats) && PotsOn(rest, seats)
    requires head.amount >= 0 && forall k :: 0 <= k < |rest| ==> rest[k].amount >= 0
    ensures forall k :: 0 <= k < |MergeFrom(head, rest, seats)| ==> MergeFrom(head, rest, seats)[k].amount >= 0
    decreases |rest|
  {
    if rest != [] {
      if SameLive(head, rest[0], seats) {
        MergePositive(head.(amount := head.amount + rest[0].amount), rest[1..], seats);
      } else {
        MergePositive(rest[0], rest[1..], seats);
      }
    }
  }

  lemma {:induction false} PotsNonNegative(seats: seq<Seat>)
    ensures forall k :: 0 <= k < |PotsOf(seats)| ==> PotsOf(seats)[k].amount >= 0
  {
    var sorted := SortByBet(Contributors(seats, 0), seats);
    var layers := Layers(sorted, seats, 0);
    LayersOn(sorted, seats, 0);
    LayersPositive(sorted, seats, 0);
    if layers != [] {
      MergePositive(layers[0], layers[1..], seats);
    }
  }

  lemma {:induction false} SameStacks(a: seq<Seat>, b: seq<Seat>, cap: int)
    requires |a| == |b| && forall i :: 0 <= i < |a| ==> a[i].chips == b[i].chips && a[i].totalBet == b[i].totalBet
    ensures SumChips(a) == SumChips(b) && Capped(a, cap) == Capped(b, cap) && SumTotalBets(a) == SumTotalBets(b)
  {
    if a != [] {
      SameStacks(a[1..], b[1..], cap);
    }
  }

  /** A lone survivor takes the whole pot. */
  lemma {:induction false} SurvivorTakesPot(t: Table, p: nat)
    requires p < |t.seats| && !t.seats[p].folded && forall i :: 0 <= i < |t.seats| && i != p ==> t.seats[i].folded
    ensures CountLive(t.seats) == 1
    ensures Showdown(t).seats == Credit(AtShowdown(t), p, t.pot)
    ensures Showdown(t).payouts == [Payout(0, t.seats[p].name, t.pot)]
    ensures SumChips(Showdown(t).seats) == SumChips(t.seats) + t.pot
  {
    var seats := AtShowdown(t);
    LoneCount(t.seats, p);
    SameLiveCount(t.seats, seats);
    CreditTotal(seats, p, t.pot);
    SameStacks(t.seats, seats, 0);
  }

  lemma {:induction false} LoneCount(seats: seq<Seat>, p: nat)
    requires p < |seats| && !seats[p].folded && forall i :: 0 <= i < |seats| && i != p ==> seats[i].folded
    ensures CountLive(seats) == 1
  {
    if p == 0 {
      AllFolded(seats[1..]);
    } else {
      LoneCount(seats[1..], p - 1);
    }
  }

  lemma {:induction false} AllFolded(seats: seq<Seat>)
    requires forall i :: 0 <= i < |seats| ==> seats[i].folded
    ensures CountLive(seats) == 0
  {
    if seats != [] {
      AllFolded(seats[1..]);
    }
  }

  /** Undistributed remainders are never negative: a showdown creates no chips. */
  lemma {:induction false} RemaindersFit(pots: seq<SidePot>, seats: seq<Seat>, board: seq<string>)
    requires PotsOn(pots, seats) && forall k :: 0 <= k < |pots| ==> pots[k].amount >= 0
    ensures Remainders(pots, seats, board) >= 0
  {
    if pots != [] {
      RemaindersFit(pots[1..], seats, board);
      RestFits(pots[0].amount,
          |BestOfLive(LiveOf(pots[0].eligible, seats), LiveOf(pots[0].eligible, seats), seats, board)|);
    }
  }

  lemma {:induction false} RestFits(amount: int, k: nat)
    requires amount >= 0
    ensures 0 <= SplitRest(amount, k) <= amount
  {
    if k > 0 {
      assert k * k > 0;
    }
  }
}
