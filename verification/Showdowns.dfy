/** Showdown: who wins each side pot, and exactly how many chips each seat is credited. */
module Showdowns {
  import opened Cards
  import opened BestHand
  import opened SolverTheorem
  import opened Tables
  import opened SidePots
  import opened SidePotProofs

  /** What a hand is worth; nothing when there are fewer than five cards to choose from. */
  function Strength(codes: seq<string>): Evaluated {
    if Combinations(ParseAll(codes), 5) == [] then Evaluated(0, []) else BestValue(ParseAll(codes))
  }

  function HandOf(s: Seat, board: seq<string>): seq<string> {
    s.cards + board
  }

  /** `p` is beaten by none of the players in `live`. */
  predicate Unbeatable(p: nat, live: seq<nat>, seats: seq<Seat>, board: seq<string>)
    requires p < |seats| && Positions(live, seats)
  {
    forall k :: 0 <= k < |live| ==>
      Compare(Strength(HandOf(seats[live[k]], board)), Strength(HandOf(seats[p], board))) <= 0
  }

  /** The players of `among` that no one in `live` beats, in order. */
  function BestOfLive(among: seq<nat>, live: seq<nat>, seats: seq<Seat>, board: seq<string>): (tied: seq<nat>)
    requires Positions(among, seats) && Positions(live, seats)
    ensures Positions(tied, seats)
    ensures forall x :: x in tied <==> x in among && Unbeatable(x, live, seats, board)
  {
    if among == [] then []
    else
      (if Unbeatable(among[0], live, seats, board) then [among[0]] else [])
      + BestOfLive(among[1..], live, seats, board)
  }

  /** The payout list of a tie: the whole list of tied players once per tied hand. */
  function Repeat(tied: seq<nat>, k: nat): seq<nat> {
    if k == 0 then [] else tied + Repeat(tied, k - 1)
  }

  function Credit(seats: seq<Seat>, p: nat, amount: int): (r: seq<Seat>)
    requires p < |seats|
    ensures |r| == |seats|
  {
    seats[p := seats[p].(chips := seats[p].chips + amount)]
  }

  datatype Settled = Settled(seats: seq<Seat>, payouts: seq<Payout>)

  /** Pays `share` to each listed player in turn. */
  function PayEach(s: Settled, winners: seq<nat>, potIndex: int, share: int): (r: Settled)
    requires Positions(winners, s.seats)
    ensures |r.seats| == |s.seats|
    decreases |winners|
  {
    if winners == [] then s
    else
      var w := winners[0];
      PayEach(Settled(Credit(s.seats, w, share), s.payouts + [Payout(potIndex, s.seats[w].name, share)]),
              winners[1..], potIndex, share)
  }

  lemma {:induction false} RepeatOn(tied: seq<nat>, k: nat, seats: seq<Seat>)
    requires Positions(tied, seats)
    ensures Positions(Repeat(tied, k), seats) && |Repeat(tied, k)| == k * |tied|
  {
    if k > 0 {
      RepeatOn(tied, k - 1, seats);
    }
  }

  function SettlePot(s: Settled, pot: SidePot, potIndex: int, board: seq<string>): (r: Settled)
    requires Positions(pot.eligible, s.seats)
    ensures |r.seats| == |s.seats|
  {
    var live := LiveOf(pot.eligible, s.seats);
    if live == [] then s
    else if |live| == 1 then PayEach(s, live, potIndex, pot.amount)
    else
      var tied := BestOfLive(live, live, s.seats, board);
      RepeatOn(tied, |tied|, s.seats);
      var winners := Repeat(tied, |tied|);
      if winners == [] then s else PayEach(s, winners, potIndex, pot.amount / |winners|)
  }

  function SettlePots(s: Settled, pots: seq<SidePot>, potIndex: int, board: seq<string>): (r: Settled)
    requires PotsOn(pots, s.seats)
    ensures |r.seats| == |s.seats|
    decreases |pots|
  {
    if pots == [] then s
    else
      var next := SettlePot(s, pots[0], potIndex, board);
      assert forall k :: 0 <= k < |pots[1..]| ==> pots[1..][k] == pots[k + 1];
      SettlePots(next, pots[1..], potIndex + 1, board)
  }

  /** The first seat still in the hand. */
  function SoleSurvivor(seats: seq<Seat>): nat {
    IndexWhere(seats, (s: Seat) => !s.folded)
  }

  function Showdown(t: Table): Table {
    var seats := Map(t.seats, (s: Seat) => s.(roundBet := 0));
    var sole := SoleSurvivor(seats);
    var done :=
      if CountLive(seats) == 1 && sole < |seats|
      then Settled(Credit(seats, sole, t.pot), [Payout(0, seats[sole].name, t.pot)])
      else SettlePots(Settled(seats, []), PotsOf(seats), 0, t.community);
    t.(seats := done.seats, payouts := done.payouts, pot := 0, intermission := true, gameStarted := false)
  }
}
