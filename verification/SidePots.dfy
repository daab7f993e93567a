/** Side pots: layering by total bet, merging layers with the same live players, and what each player can win. */
module SidePots {
  import opened Tables

  datatype SidePot = SidePot(amount: int, eligible: seq<nat>)

  // Contenders are named by their position in the seat list.

  predicate Positions(ix: seq<nat>, seats: seq<Seat>) {
    forall k :: 0 <= k < |ix| ==> ix[k] < |seats|
  }

  predicate ByBet(ix: seq<nat>, seats: seq<Seat>)
    requires Positions(ix, seats)
  {
    forall i, j :: 0 <= i < j < |ix| ==> seats[ix[i]].totalBet <= seats[ix[j]].totalBet
  }

  function InsertByBet(c: nat, ix: seq<nat>, seats: seq<Seat>): (r: seq<nat>)
    requires c < |seats| && Positions(ix, seats)
    ensures Positions(r, seats)
    ensures |r| == |ix| + 1 && forall x :: x in r <==> x == c || x in ix
  {
    if ix == [] || seats[c].totalBet <= seats[ix[0]].totalBet then [c] + ix
    else [ix[0]] + InsertByBet(c, ix[1..], seats)
  }

  /** The stable sort by ascending total bet. */
  function SortByBet(ix: seq<nat>, seats: seq<Seat>): (r: seq<nat>)
    requires Positions(ix, seats)
    ensures Positions(r, seats)
    ensures |r| == |ix| && forall x :: x in r <==> x in ix
  {
    if ix == [] then [] else InsertByBet(ix[0], SortByBet(ix[1..], seats), seats)
  }

  /** One layer for each level above `prev` that some contender reaches. */
  function Layers(sorted: seq<nat>, seats: seq<Seat>, prev: int): (pots: seq<SidePot>)
    requires Positions(sorted, seats)
  {
    if sorted == [] then []
    else
      var lvl := seats[sorted[0]].totalBet;
      if lvl - prev > 0 then [SidePot((lvl - prev) * |sorted|, sorted)] + Layers(sorted[1..], seats, lvl)
      else Layers(sorted[1..], seats, prev)
  }

  predicate PotsOn(pots: seq<SidePot>, seats: seq<Seat>) {
    forall k :: 0 <= k < |pots| ==> Positions(pots[k].eligible, seats)
  }

  function LiveOf(ix: seq<nat>, seats: seq<Seat>): (r: seq<nat>)
    requires Positions(ix, seats)
    ensures |r| <= |ix| && Positions(r, seats)
    ensures forall x :: x in r <==> x in ix && !seats[x].folded
  {
    if ix == [] then [] else (if seats[ix[0]].folded then [] else [ix[0]]) + LiveOf(ix[1..], seats)
  }

  predicate Subset(a: seq<nat>, b: seq<nat>) {
    forall k :: 0 <= k < |a| ==> a[k] in b
  }

  /** The merge test: equally many live players, and the first lot among the second. */
  predicate SameLive(a: SidePot, b: SidePot, seats: seq<Seat>)
    requires Positions(a.eligible, seats) && Positions(b.eligible, seats)
  {
    var liveA, liveB := LiveOf(a.eligible, seats), LiveOf(b.eligible, seats);
    |liveA| == |liveB| && Subset(liveA, liveB)
  }

  /** `head` absorbs following pots while they have the same live players. */
  function MergeFrom(head: SidePot, rest: seq<SidePot>, seats: seq<Seat>): (r: seq<SidePot>)
    requires Positions(head.eligible, seats) && PotsOn(rest, seats)
    ensures r != [] && PotsOn(r, seats)
    decreases |rest|
  {
    if rest == [] then [head]
    else if SameLive(head, rest[0], seats)
    then MergeFrom(head.(amount := head.amount + rest[0].amount), rest[1..], seats)
    else [head] + MergeFrom(rest[0], rest[1..], seats)
  }

  function Merge(pots: seq<SidePot>, seats: seq<Seat>): (r: seq<SidePot>)
    requires PotsOn(pots, seats)
    ensures PotsOn(r, seats)
  {
    if pots == [] then [] else MergeFrom(pots[0], pots[1..], seats)
  }

  lemma {:induction false} LayersOn(sorted: seq<nat>, seats: seq<Seat>, prev: int)
    requires Positions(sorted, seats)
    ensures PotsOn(Layers(sorted, seats, prev), seats)
  {
    if sorted != [] {
      LayersOn(sorted[1..], seats, seats[sorted[0]].totalBet);
      LayersOn(sorted[1..], seats, prev);
    }
  }

  /** The seats with chips in the pot, in seat order from position `i`. */
  function Contributors(seats: seq<Seat>, i: nat): (r: seq<nat>)
    requires i <= |seats|
    decreases |seats| - i
    ensures Positions(r, seats)
    ensures forall x :: x in r <==> i <= x < |seats| && seats[x].totalBet > 0
  {
    if i == |seats| then []
    else (if seats[i].totalBet > 0 then [i] else []) + Contributors(seats, i + 1)
  }

  function BuildSidePots(contenders: seq<nat>, seats: seq<Seat>): (pots: seq<SidePot>)
    requires Positions(contenders, seats)
    ensures PotsOn(pots, seats)
  {
    var sorted := SortByBet(contenders, seats);
    LayersOn(sorted, seats, 0);
    Merge(Layers(sorted, seats, 0), seats)
  }

  // ---- Sums ----

  function Total(pots: seq<SidePot>): int {
    if pots == [] then 0 else pots[0].amount + Total(pots[1..])
  }

  /** Everything in the pots that position `p` is live for. */
  function EligibleFor(pots: seq<SidePot>, seats: seq<Seat>, p: nat): int
    requires PotsOn(pots, seats)
  {
    if pots == [] then 0
    else (if p in LiveOf(pots[0].eligible, seats) then pots[0].amount else 0) + EligibleFor(pots[1..], seats, p)
  }

  /** The sum over `ix` of the part of each total bet between `floor` and `cap`. */
  function CappedAbove(ix: seq<nat>, seats: seq<Seat>, cap: int, floor: int): int
    requires Positions(ix, seats)
  {
    if ix == [] then 0 else Min(seats[ix[0]].totalBet, cap) - floor + CappedAbove(ix[1..], seats, cap, floor)
  }

  /** The sum over all seats of `min(total bet, cap)`. */
  function Capped(seats: seq<Seat>, cap: int): int {
    if seats == [] then 0 else Min(seats[0].totalBet, cap) + Capped(seats[1..], cap)
  }

  function SumTotalBets(seats: seq<Seat>): int {
    if seats == [] then 0 else seats[0].totalBet + SumTotalBets(seats[1..])
  }
}
