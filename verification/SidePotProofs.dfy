/** Side pots are fair: each live player is in for exactly what they matched, before and after merging. */
module SidePotProofs {
  import opened Sequences
  import opened Tables
  import opened SidePots

  // ---- Sorting ----

  lemma {:induction false} InsertSorted(c: nat, ix: seq<nat>, seats: seq<Seat>)
    requires c < |seats| && Positions(ix, seats) && ByBet(ix, seats)
    requires Distinct(ix) && c !in ix
    ensures ByBet(InsertByBet(c, ix, seats), seats) && Distinct(InsertByBet(c, ix, seats))
  {
    if ix != [] && seats[c].totalBet > seats[ix[0]].totalBet {
      InsertSorted(c, ix[1..], seats);
      var r := InsertByBet(c, ix[1..], seats);
      forall k | 0 <= k < |r| ensures seats[ix[0]].totalBet <= seats[r[k]].totalBet && r[k] != ix[0] {
        assert r[k] in r;
        if r[k] != c {
          var j :| 0 <= j < |ix[1..]| && ix[1..][j] == r[k];
          assert ix[j + 1] == r[k];
        }
      }
      ConsSorted(ix[0], r, seats);
    } else if ix != [] {
      ConsSorted(c, ix, seats);
    }
  }

  lemma {:induction false} ConsSorted(x: nat, ix: seq<nat>, seats: seq<Seat>)
    requires x < |seats| && Positions(ix, seats) && ByBet(ix, seats) && Distinct(ix)
    requires forall k :: 0 <= k < |ix| ==> seats[x].totalBet <= seats[ix[k]].totalBet && ix[k] != x
    ensures Positions([x] + ix, seats) && ByBet([x] + ix, seats) && Distinct([x] + ix)
  {
    var r := [x] + ix;
    forall i, j | 0 <= i < j < |r| ensures seats[r[i]].totalBet <= seats[r[j]].totalBet && r[i] != r[j] {
      assert r[j] == ix[j - 1];
      if i > 0 {
        assert r[i] == ix[i - 1];
      }
    }
  }

  lemma {:induction false} SortSorted(ix: seq<nat>, seats: seq<Seat>)
    requires Positions(ix, seats) && Distinct(ix)
    ensures ByBet(SortByBet(ix, seats), seats) && Distinct(SortByBet(ix, seats))
  {
    if ix != [] {
      SortSorted(ix[1..], seats);
      InsertSorted(ix[0], SortByBet(ix[1..], seats), seats);
    }
  }

  lemma {:induction false} InsertCapped(c: nat, ix: seq<nat>, seats: seq<Seat>, cap: int, floor: int)
    requires c < |seats| && Positions(ix, seats)
    ensures CappedAbove(InsertByBet(c, ix, seats), seats, cap, floor)
         == Min(seats[c].totalBet, cap) - floor + CappedAbove(ix, seats, cap, floor)
  {
    if ix != [] && seats[c].totalBet > seats[ix[0]].totalBet {
      InsertCapped(c, ix[1..], seats, cap, floor);
    }
  }

  lemma {:induction false} SortCapped(ix: seq<nat>, seats: seq<Seat>, cap: int, floor: int)
    requires Positions(ix, seats)
    ensures CappedAbove(SortByBet(ix, seats), seats, cap, floor) == CappedAbove(ix, seats, cap, floor)
  {
    if ix != [] {
      SortCapped(ix[1..], seats, cap, floor);
      InsertCapped(ix[0], SortByBet(ix[1..], seats), seats, cap, floor);
    }
  }

  lemma {:induction false} ContributorsDistinct(seats: seq<Seat>, i: nat)
    requires i <= |seats|
    ensures Distinct(Contributors(seats, i))
    decreases |seats| - i
  {
    if i < |seats| {
      ContributorsDistinct(seats, i + 1);
    }
  }

  lemma {:induction false} CappedCons(x: nat, ix: seq<nat>, seats: seq<Seat>, cap: int, floor: int)
    requires x < |seats| && Positions(ix, seats)
    ensures Positions([x] + ix, seats)
    ensures CappedAbove([x] + ix, seats, cap, floor)
        == Min(seats[x].totalBet, cap) - floor + CappedAbove(ix, seats, cap, floor)
  {
    assert ([x] + ix)[1..] == ix;
  }

  lemma {:induction false} CappedFrom(seats: seq<Seat>, i: nat, cap: int)
    requires i < |seats|
    ensures Capped(seats[i..], cap) == Min(seats[i].totalBet, cap) + Capped(seats[i + 1..], cap)
  {
    assert seats[i..][1..] == seats[i + 1..];
  }

  lemma {:induction false} ContributorsCapped(seats: seq<Seat>, i: nat, cap: int)
    requires i <= |seats| && cap >= 0 && forall k :: 0 <= k < |seats| ==> seats[k].totalBet >= 0
    ensures CappedAbove(Contributors(seats, i), seats, cap, 0) == Capped(seats[i..], cap)
    decreases |seats| - i
  {
    if i < |seats| {
      var rest := Contributors(seats, i + 1);
      ContributorsCapped(seats, i + 1, cap);
      CappedFrom(seats, i, cap);
      ContributorCapped(seats, i, rest, cap);
    }
  }

  lemma {:induction false} ContributorCapped(seats: seq<Seat>, i: nat, rest: seq<nat>, cap: int)
    requires i < |seats| && cap >= 0 && seats[i].totalBet >= 0 && rest == Contributors(seats, i + 1)
    ensures CappedAbove(Contributors(seats, i), seats, cap, 0)
        == CappedAbove(rest, seats, cap, 0) + Min(seats[i].totalBet, cap)
  {
    if seats[i].totalBet > 0 {
      CappedCons(i, rest, seats, cap, 0);
      assert Contributors(seats, i) == [i] + rest;
    } else {
      assert Contributors(seats, i) == rest;
    }
  }

  // ---- Layers ----

  predicate AtLeast(ix: seq<nat>, seats: seq<Seat>, floor: int)
    requires Positions(ix, seats)
  {
    forall k :: 0 <= k < |ix| ==> seats[ix[k]].totalBet >= floor
  }

  lemma {:induction false} CappedFloor(ix: seq<nat>, seats: seq<Seat>, cap: int, floor: int, up: int)
    requires Positions(ix, seats)
    ensures CappedAbove(ix, seats, cap, floor) == CappedAbove(ix, seats, cap, up) + (up - floor) * |ix|
  {
    if ix != [] {
      CappedFloor(ix[1..], seats, cap, floor, up);
      assert (up - floor) * |ix| == (up - floor) * |ix[1..]| + (up - floor);
    }
  }

  lemma {:induction false} CappedAtFloor(ix: seq<nat>, seats: seq<Seat>, cap: int)
    requires Positions(ix, seats) && AtLeast(ix, seats, cap)
    ensures CappedAbove(ix, seats, cap, cap) == 0
  {
    if ix != [] {
      CappedAtFloor(ix[1..], seats, cap);
    }
  }

  lemma {:induction false} LayersOutside(sorted: seq<nat>, seats: seq<Seat>, prev: int, p: nat)
    requires Positions(sorted, seats) && PotsOn(Layers(sorted, seats, prev), seats) && p !in sorted
    ensures EligibleFor(Layers(sorted, seats, prev), seats, p) == 0
  {
    if sorted != [] {
      LayersOn(sorted[1..], seats, seats[sorted[0]].totalBet);
      LayersOn(sorted[1..], seats, prev);
      LayersOutside(sorted[1..], seats, seats[sorted[0]].totalBet, p);
      LayersOutside(sorted[1..], seats, prev, p);
    }
  }

  lemma {:induction false} EligibleCons(pot: SidePot, tail: seq<SidePot>, seats: seq<Seat>, p: nat)
    requires PotsOn([pot] + tail, seats)
    ensures PotsOn(tail, seats) && Positions(pot.eligible, seats)
    ensures EligibleFor([pot] + tail, seats, p)
         == (if p in LiveOf(pot.eligible, seats) then pot.amount else 0) + EligibleFor(tail, seats, p)
  {
    assert ([pot] + tail)[0] == pot && ([pot] + tail)[1..] == tail;
    forall k | 0 <= k < |tail| ensures Positions(tail[k].eligible, seats) {
      assert ([pot] + tail)[k + 1] == tail[k];
    }
  }

  lemma {:induction false} TimesSucc(d: int, n: int)
    ensures d * (n + 1) == d * n + d
  {
  }

  /** One layer more: its players gain its depth times its width, everyone else nothing. */
  lemma {:induction false} LayerStep(sorted: seq<nat>, seats: seq<Seat>, prev: int, p: nat)
    requires sorted != [] && Positions(sorted, seats) && p in sorted && !seats[p].folded
    requires seats[sorted[0]].totalBet >= prev
    ensures var lvl := seats[sorted[0]].totalBet;
      && PotsOn(Layers(sorted, seats, prev), seats) && PotsOn(Layers(sorted[1..], seats, lvl), seats)
      && EligibleFor(Layers(sorted, seats, prev), seats, p)
           == (lvl - prev) * |sorted| + EligibleFor(Layers(sorted[1..], seats, lvl), seats, p)
  {
    var rest, lvl := sorted[1..], seats[sorted[0]].totalBet;
    LayersOn(sorted, seats, prev);
    LayersOn(rest, seats, lvl);
    if lvl > prev {
      EligibleCons(SidePot((lvl - prev) * |sorted|, sorted), Layers(rest, seats, lvl), seats, p);
    } else {
      assert (lvl - prev) * |sorted| == 0;
    }
  }

  lemma {:induction false} RestAtLeast(sorted: seq<nat>, seats: seq<Seat>)
    requires sorted != [] && Positions(sorted, seats) && ByBet(sorted, seats)
    ensures Positions(sorted[1..], seats) && ByBet(sorted[1..], seats)
    ensures AtLeast(sorted[1..], seats, seats[sorted[0]].totalBet)
    ensures Distinct(sorted) ==> Distinct(sorted[1..]) && sorted[0] !in sorted[1..]
  {
    assert forall k :: 0 <= k < |sorted[1..]| ==> sorted[1..][k] == sorted[k + 1];
  }

  /** A live player is eligible for what each contender put in, up to the player's own bet. */
  lemma {:induction false} LayersShare(sorted: seq<nat>, seats: seq<Seat>, prev: int, p: nat)
    requires Positions(sorted, seats) && ByBet(sorted, seats) && Distinct(sorted) && AtLeast(sorted, seats, prev)
    requires p in sorted && !seats[p].folded
    requires PotsOn(Layers(sorted, seats, prev), seats)
    ensures EligibleFor(Layers(sorted, seats, prev), seats, p) == CappedAbove(sorted, seats, seats[p].totalBet, prev)
    decreases |sorted|, 1
  {
    RestAtLeast(sorted, seats);
    LayerStep(sorted, seats, prev, p);
    LevelBounds(sorted, seats, prev, p);
    CappedFloor(sorted, seats, seats[p].totalBet, prev, seats[sorted[0]].totalBet);
    LayersAbove(sorted, seats, p);
  }

  /** The layers above the first one. */
  lemma {:induction false} LayersAbove(sorted: seq<nat>, seats: seq<Seat>, p: nat)
    requires Positions(sorted, seats) && ByBet(sorted, seats) && Distinct(sorted) && p in sorted && !seats[p].folded
    requires var lvl := seats[sorted[0]].totalBet;
      && AtLeast(sorted[1..], seats, lvl) && seats[p].totalBet >= lvl
      && Positions(sorted[1..], seats) && PotsOn(Layers(sorted[1..], seats, lvl), seats)
    ensures var lvl := seats[sorted[0]].totalBet;
      EligibleFor(Layers(sorted[1..], seats, lvl), seats, p) == CappedAbove(sorted, seats, seats[p].totalBet, lvl)
    decreases |sorted|, 0
  {
    var rest, lvl := sorted[1..], seats[sorted[0]].totalBet;
    RestAtLeast(sorted, seats);
    if p == sorted[0] {
      LayersOutside(rest, seats, lvl, p);
      CappedAtFloor(sorted, seats, lvl);
    } else {
      LevelBounds(sorted, seats, lvl, p);
      LayersShare(rest, seats, lvl, p);
    }
  }

  lemma {:induction false} LevelBounds(sorted: seq<nat>, seats: seq<Seat>, prev: int, p: nat)
    requires Positions(sorted, seats) && ByBet(sorted, seats) && AtLeast(sorted, seats, prev) && p in sorted
    ensures prev <= seats[sorted[0]].totalBet <= seats[p].totalBet
    ensures p == sorted[0] || p in sorted[1..]
  {
    var i :| 0 <= i < |sorted| && sorted[i] == p;
    if i > 0 {
      assert sorted[1..][i - 1] == p;
    }
  }

  /** The layers hold everything that was bet. */
  lemma {:induction false} LayersTotal(sorted: seq<nat>, seats: seq<Seat>, prev: int, cap: int)
    requires Positions(sorted, seats) && ByBet(sorted, seats) && AtLeast(sorted, seats, prev)
    requires forall k :: 0 <= k < |sorted| ==> seats[sorted[k]].totalBet <= cap
    ensures Total(Layers(sorted, seats, prev)) == CappedAbove(sorted, seats, cap, prev)
  {
    if sorted != [] {
      var rest, lvl := sorted[1..], seats[sorted[0]].totalBet;
      RestAtLeast(sorted, seats);
      LayersTotal(rest, seats, lvl, cap);
      if lvl > prev {
        CappedFloor(rest, seats, cap, prev, lvl);
        TimesSucc(lvl - prev, |rest|);
      }
    }
  }

  /** Whoever bet at least as much as an eligible player is eligible too. */
  ghost predicate UpClosed(eligible: seq<nat>, all: seq<nat>, seats: seq<Seat>)
    requires Positions(eligible, seats) && Positions(all, seats)
  {
    && Distinct(eligible)
    && (forall x :: x in eligible ==> x in all)
    && (forall x, q :: x in eligible && q in all && seats[q].totalBet >= seats[x].totalBet ==> q in eligible)
  }

  // ---- Merging ----

  lemma {:induction false} LiveDistinct(ix: seq<nat>, seats: seq<Seat>)
    requires Positions(ix, seats) && Distinct(ix)
    ensures Distinct(LiveOf(ix, seats))
  {
    if ix != [] {
      LiveDistinct(ix[1..], seats);
    }
  }

  /** The merge test finds exactly the pots with the same live players. */
  lemma {:induction false} SameLiveMeans(a: SidePot, b: SidePot, seats: seq<Seat>)
    requires Positions(a.eligible, seats) && Positions(b.eligible, seats)
    requires Distinct(a.eligible) && Distinct(b.eligible)
    ensures SameLive(a, b, seats) <==> forall x :: x in LiveOf(a.eligible, seats) <==> x in LiveOf(b.eligible, seats)
  {
    var liveA, liveB := LiveOf(a.eligible, seats), LiveOf(b.eligible, seats);
    LiveDistinct(a.eligible, seats);
    LiveDistinct(b.eligible, seats);
    if SameLive(a, b, seats) {
      forall x | x in liveB ensures x in liveA {
        if x !in liveA {
          DistinctCons(x, liveA);
          DistinctWithin([x] + liveA, liveB);
        }
      }
    } else if forall x :: x in liveA <==> x in liveB {
      DistinctWithin(liveA, liveB);
      DistinctWithin(liveB, liveA);
    }
  }

  /** Every pot's players are up-closed among the contenders `all`. */
  ghost predicate Sound(pots: seq<SidePot>, all: seq<nat>, seats: seq<Seat>)
    requires Positions(all, seats)
  {
    pots == [] || (SoundPot(pots[0], all, seats) && Sound(pots[1..], all, seats))
  }

  ghost predicate SoundPot(pot: SidePot, all: seq<nat>, seats: seq<Seat>)
    requires Positions(all, seats)
  {
    Positions(pot.eligible, seats) && UpClosed(pot.eligible, all, seats)
  }

  predicate Fewer(next: SidePot, head: SidePot) {
    forall x :: x in next.eligible ==> x in head.eligible
  }

  /** Each pot is for some of the players of the pot before it. */
  predicate Chain(head: SidePot, rest: seq<SidePot>)
    decreases |rest|
  {
    rest == [] || (Fewer(rest[0], head) && Chain(rest[0], rest[1..]))
  }

  function Share(pot: SidePot, seats: seq<Seat>, p: nat): int
    requires Positions(pot.eligible, seats)
  {
    if p in LiveOf(pot.eligible, seats) then pot.amount else 0
  }

  lemma {:induction false} ConsFacts(pot: SidePot, tail: seq<SidePot>, seats: seq<Seat>, p: nat)
    requires Positions(pot.eligible, seats) && PotsOn(tail, seats)
    ensures PotsOn([pot] + tail, seats)
    ensures EligibleFor([pot] + tail, seats, p) == Share(pot, seats, p) + EligibleFor(tail, seats, p)
    ensures Total([pot] + tail) == pot.amount + Total(tail)
  {
    assert ([pot] + tail)[1..] == tail;
  }

  lemma {:induction false} MergedShare(head: SidePot, next: SidePot, seats: seq<Seat>, p: nat)
    requires Positions(head.eligible, seats) && Positions(next.eligible, seats)
    requires Distinct(head.eligible) && Distinct(next.eligible) && SameLive(head, next, seats)
    ensures Share(head.(amount := head.amount + next.amount), seats, p) == Share(head, seats, p) + Share(next, seats, p)
  {
    SameLiveMeans(head, next, seats);
    assert p in LiveOf(head.eligible, seats) <==> p in LiveOf(next.eligible, seats);
  }

  /** Every pot lists each of its players once. */
  ghost predicate Listed(pots: seq<SidePot>) {
    pots == [] || (Distinct(pots[0].eligible) && Listed(pots[1..]))
  }

  lemma {:induction false} SoundListed(pots: seq<SidePot>, all: seq<nat>, seats: seq<Seat>)
    requires Positions(all, seats) && Sound(pots, all, seats)
    ensures Listed(pots)
  {
    if pots != [] {
      SoundListed(pots[1..], all, seats);
    }
  }

  lemma {:induction false} TailFacts(pots: seq<SidePot>, seats: seq<Seat>, p: nat)
    requires PotsOn(pots, seats) && pots != []
    ensures Positions(pots[0].eligible, seats) && PotsOn(pots[1..], seats)
    ensures EligibleFor(pots, seats, p) == Share(pots[0], seats, p) + EligibleFor(pots[1..], seats, p)
  {
  }

  /** Merging moves no chip out of reach of a live player, and none into reach of another. */
  lemma {:induction false} MergeKeepsShare(head: SidePot, rest: seq<SidePot>, seats: seq<Seat>, p: nat)
    requires Positions(head.eligible, seats) && PotsOn(rest, seats) && Distinct(head.eligible) && Listed(rest)
    ensures EligibleFor(MergeFrom(head, rest, seats), seats, p) == Share(head, seats, p) + EligibleFor(rest, seats, p)
    decreases |rest|
  {
    if rest == [] {
      ConsFacts(head, [], seats, p);
      assert [head] + [] == [head];
    } else {
      var next, tail := rest[0], rest[1..];
      TailFacts(rest, seats, p);
      if SameLive(head, next, seats) {
        var merged := head.(amount := head.amount + next.amount);
        assert merged.eligible == head.eligible;
        MergedShare(head, next, seats, p);
        MergeKeepsShare(merged, tail, seats, p);
        assert MergeFrom(head, rest, seats) == MergeFrom(merged, tail, seats);
      } else {
        MergeKeepsShare(next, tail, seats, p);
        ConsFacts(head, MergeFrom(next, tail, seats), seats, p);
        assert MergeFrom(head, rest, seats) == [head] + MergeFrom(next, tail, seats);
      }
    }
  }

  lemma {:induction false} MergeKeepsTotal(head: SidePot, rest: seq<SidePot>, seats: seq<Seat>)
    requires Positions(head.eligible, seats) && PotsOn(rest, seats)
    ensures Total(MergeFrom(head, rest, seats)) == head.amount + Total(rest)
    decreases |rest|
  {
    if rest == [] {
      assert [head][1..] == [];
    } else {
      var next, tail := rest[0], rest[1..];
      if SameLive(head, next, seats) {
        MergeKeepsTotal(head.(amount := head.amount + next.amount), tail, seats);
      } else {
        MergeKeepsTotal(next, tail, seats);
        ConsFacts(head, MergeFrom(next, tail, seats), seats, 0);
      }
    }
  }

  function LiveSize(pot: SidePot, seats: seq<Seat>): nat
    requires Positions(pot.eligible, seats)
  {
    |LiveOf(pot.eligible, seats)|
  }

  /** Each pot has strictly fewer live players than the one before it, all of them live there too. */
  predicate StrictChain(pots: seq<SidePot>, seats: seq<Seat>)
    requires PotsOn(pots, seats)
  {
    |pots| <= 1
    || (Fewer(pots[1], pots[0]) && LiveSize(pots[1], seats) < LiveSize(pots[0], seats) && StrictChain(pots[1..], seats))
  }

  lemma {:induction false} SmallerNext(a: SidePot, b: SidePot, seats: seq<Seat>)
    requires Positions(a.eligible, seats) && Positions(b.eligible, seats)
    requires Distinct(a.eligible) && Distinct(b.eligible) && !SameLive(a, b, seats) && Fewer(b, a)
    ensures LiveSize(b, seats) < LiveSize(a, seats)
  {
    var liveA, liveB := LiveOf(a.eligible, seats), LiveOf(b.eligible, seats);
    SameLiveMeans(a, b, seats);
    LiveDistinct(b.eligible, seats);
    var x :| x in liveA && x !in liveB;
    DistinctCons(x, liveB);
    DistinctWithin([x] + liveB, liveA);
  }

  lemma {:induction false} MergeHead(head: SidePot, rest: seq<SidePot>, seats: seq<Seat>)
    requires Positions(head.eligible, seats) && PotsOn(rest, seats)
    ensures MergeFrom(head, rest, seats)[0].eligible == head.eligible
    decreases |rest|
  {
    if rest != [] && SameLive(head, rest[0], seats) {
      MergeHead(head.(amount := head.amount + rest[0].amount), rest[1..], seats);
    }
  }

  /** Merging leaves a strict chain of pots. */
  lemma {:induction false} MergeNests(head: SidePot, rest: seq<SidePot>, seats: seq<Seat>)
    requires Positions(head.eligible, seats) && PotsOn(rest, seats) && Distinct(head.eligible) && Listed(rest)
    requires Chain(head, rest)
    ensures StrictChain(MergeFrom(head, rest, seats), seats)
    decreases |rest|
  {
    if rest == [] {
      assert [head][1..] == [];
    } else {
      var next, tail := rest[0], rest[1..];
      ChainTail(head, rest, seats);
      if SameLive(head, next, seats) {
        var merged := head.(amount := head.amount + next.amount);
        assert merged.eligible == head.eligible;
        MergeNests(merged, tail, seats);
        assert MergeFrom(head, rest, seats) == MergeFrom(merged, tail, seats);
      } else {
        MergeNests(next, tail, seats);
        MergeHead(next, tail, seats);
        NestStep(head, next, MergeFrom(next, tail, seats), seats);
      }
    }
  }

  /** Both the next pot and the one that takes it in head the rest of the chain. */
  lemma {:induction false} ChainTail(head: SidePot, rest: seq<SidePot>, seats: seq<Seat>)
    requires PotsOn(rest, seats) && Listed(rest) && Chain(head, rest) && rest != []
    ensures Fewer(rest[0], head) && Chain(rest[0], rest[1..]) && Distinct(rest[0].eligible) && Listed(rest[1..])
    ensures Positions(rest[0].eligible, seats) && PotsOn(rest[1..], seats)
    ensures Chain(head.(amount := head.amount + rest[0].amount), rest[1..])
  {
    if |rest| > 1 {
      FewerTrans(rest[1], rest[0], head);
    }
  }

  lemma {:induction false} NestStep(head: SidePot, next: SidePot, pots: seq<SidePot>, seats: seq<Seat>)
    requires Positions(head.eligible, seats) && Positions(next.eligible, seats) && PotsOn(pots, seats)
    requires Distinct(head.eligible) && Distinct(next.eligible) && !SameLive(head, next, seats) && Fewer(next, head)
    requires pots != [] && pots[0].eligible == next.eligible && StrictChain(pots, seats)
    ensures PotsOn([head] + pots, seats) && StrictChain([head] + pots, seats)
  {
    SmallerNext(head, next, seats);
    ChainCons(head, pots, seats);
  }

  lemma {:induction false} ChainCons(head: SidePot, pots: seq<SidePot>, seats: seq<Seat>)
    requires Positions(head.eligible, seats) && PotsOn(pots, seats) && StrictChain(pots, seats)
    requires pots != [] && Fewer(pots[0], head) && LiveSize(pots[0], seats) < LiveSize(head, seats)
    ensures PotsOn([head] + pots, seats) && StrictChain([head] + pots, seats)
  {
    assert ([head] + pots)[1..] == pots;
  }

  /** Every merged pot has the player list of an original one. */
  lemma {:induction false} MergeSound(head: SidePot, rest: seq<SidePot>, all: seq<nat>, seats: seq<Seat>)
    requires Positions(all, seats) && SoundPot(head, all, seats) && Sound(rest, all, seats) && PotsOn(rest, seats)
    ensures Sound(MergeFrom(head, rest, seats), all, seats)
    decreases |rest|
  {
    if rest == [] {
      assert [head][1..] == [];
    } else {
      var next, tail := rest[0], rest[1..];
      if SameLive(head, next, seats) {
        MergeSound(head.(amount := head.amount + next.amount), tail, all, seats);
      } else {
        MergeSound(next, tail, all, seats);
        assert ([head] + MergeFrom(next, tail, seats))[1..] == MergeFrom(next, tail, seats);
      }
    }
  }

  /** For strictly fewer live players, and only players of the other pot. */
  predicate Inside(a: SidePot, b: SidePot, seats: seq<Seat>) {
    && Positions(a.eligible, seats) && Positions(b.eligible, seats)
    && LiveSize(a, seats) < LiveSize(b, seats) && Fewer(a, b)
  }

  /** The chain between neighbours. */
  lemma {:induction false} StrictAt(pots: seq<SidePot>, seats: seq<Seat>, k: nat)
    requires PotsOn(pots, seats) && StrictChain(pots, seats) && k + 1 < |pots|
    ensures Inside(pots[k + 1], pots[k], seats)
  {
    if k > 0 {
      var tail := pots[1..];
      assert tail[k] == pots[k + 1] && tail[k - 1] == pots[k];
      StrictAt(tail, seats, k - 1);
    }
  }

  lemma {:induction false} InsideTrans(a: SidePot, b: SidePot, c: SidePot, seats: seq<Seat>)
    requires Inside(a, b, seats) && Inside(b, c, seats)
    ensures Inside(a, c, seats)
  {
  }

  /** The chain read pairwise: a later pot has strictly fewer live players and only players of the earlier one. */
  lemma {:induction false} ChainPairs(pots: seq<SidePot>, seats: seq<Seat>, i: nat, j: nat)
    requires PotsOn(pots, seats) && StrictChain(pots, seats) && i < j < |pots|
    ensures Inside(pots[j], pots[i], seats)
    decreases j
  {
    StrictAt(pots, seats, j - 1);
    if i < j - 1 {
      ChainPairs(pots, seats, i, j - 1);
      InsideTrans(pots[j], pots[j - 1], pots[i], seats);
    }
  }

  lemma {:induction false} FewerTrans(a: SidePot, b: SidePot, c: SidePot)
    requires Fewer(a, b) && Fewer(b, c)
    ensures Fewer(a, c)
  {
  }

  /** Strictly nested: later pots have strictly fewer live players, all live in the earlier ones. */
  lemma {:induction false} StrictlyNested(pots: seq<SidePot>, seats: seq<Seat>, i: nat, j: nat)
    requires PotsOn(pots, seats) && StrictChain(pots, seats) && i < j < |pots|
    ensures |LiveOf(pots[j].eligible, seats)| < |LiveOf(pots[i].eligible, seats)|
    ensures forall x :: x in LiveOf(pots[j].eligible, seats) ==> x in LiveOf(pots[i].eligible, seats)
  {
    ChainPairs(pots, seats, i, j);
    FewerLive(pots[i], pots[j], seats);
  }

  lemma {:induction false} FewerLive(a: SidePot, b: SidePot, seats: seq<Seat>)
    requires Positions(a.eligible, seats) && Positions(b.eligible, seats) && Fewer(b, a)
    ensures forall x :: x in LiveOf(b.eligible, seats) ==> x in LiveOf(a.eligible, seats)
  {
  }

  // ---- Layers form a sound chain ----

  /** The layers above `prev`, in the recursive form the merge proofs use. */
  ghost predicate LayersGood(pots: seq<SidePot>, all: seq<nat>, seats: seq<Seat>, prev: int)
    requires Positions(all, seats)
  {
    pots == []
    || (SoundPot(pots[0], all, seats)
        && (forall x :: x in pots[0].eligible ==> seats[x].totalBet > prev)
        && Chain(pots[0], pots[1..])
        && LayersGood(pots[1..], all, seats, prev))
  }

  /** A contender at or below the level is in none of the layers above it. */
  lemma {:induction false} LayersWiden(pots: seq<SidePot>, sorted: seq<nat>, seats: seq<Seat>, prev: int, lower: int)
    requires sorted != [] && Positions(sorted, seats) && LayersGood(pots, sorted[1..], seats, prev)
    requires seats[sorted[0]].totalBet <= prev && lower <= prev
    ensures LayersGood(pots, sorted, seats, lower)
  {
    if pots != [] {
      LayersWiden(pots[1..], sorted, seats, prev, lower);
      assert forall q :: q in sorted <==> q == sorted[0] || q in sorted[1..];
      assert UpClosed(pots[0].eligible, sorted[1..], seats);
    }
  }

  lemma {:induction false} LayersAreGood(sorted: seq<nat>, seats: seq<Seat>, prev: int)
    requires Positions(sorted, seats) && ByBet(sorted, seats) && Distinct(sorted)
    ensures LayersGood(Layers(sorted, seats, prev), sorted, seats, prev)
  {
    if sorted != [] {
      var rest, lvl := sorted[1..], seats[sorted[0]].totalBet;
      RestAtLeast(sorted, seats);
      if lvl > prev {
        LayersAreGood(rest, seats, lvl);
        LayersWiden(Layers(rest, seats, lvl), sorted, seats, lvl, prev);
        WholeLayer(SidePot((lvl - prev) * |sorted|, sorted), Layers(rest, seats, lvl), sorted, seats, prev);
      } else {
        LayersAreGood(rest, seats, prev);
        LayersWiden(Layers(rest, seats, prev), sorted, seats, prev, prev);
      }
    }
  }

  lemma {:induction false} WholeLayer(pot: SidePot, tail: seq<SidePot>, sorted: seq<nat>, seats: seq<Seat>, prev: int)
    requires sorted != [] && pot.eligible == sorted && Positions(sorted, seats) && ByBet(sorted, seats)
        && Distinct(sorted)
    requires prev < seats[sorted[0]].totalBet && LayersGood(tail, sorted, seats, prev)
    ensures LayersGood([pot] + tail, sorted, seats, prev)
  {
    assert ([pot] + tail)[1..] == tail;
    forall x | x in sorted ensures seats[x].totalBet > prev {
      var i :| 0 <= i < |sorted| && sorted[i] == x;
    }
    if tail != [] {
      assert Fewer(tail[0], pot);
    }
  }

  lemma {:induction false} GoodIsSound(pots: seq<SidePot>, all: seq<nat>, seats: seq<Seat>, prev: int)
    requires Positions(all, seats) && LayersGood(pots, all, seats, prev)
    ensures Sound(pots, all, seats)
  {
    if pots != [] {
      GoodIsSound(pots[1..], all, seats, prev);
    }
  }

  // ---- The side pots of a table ----

  function PotsOf(seats: seq<Seat>): (pots: seq<SidePot>)
    ensures PotsOn(pots, seats)
  {
    BuildSidePots(Contributors(seats, 0), seats)
  }

  predicate BetsFit(seats: seq<Seat>) {
    forall i :: 0 <= i < |seats| ==> seats[i].totalBet >= 0
  }

  function MaxBet(seats: seq<Seat>): int {
    if seats == [] then 0 else
      var rest := MaxBet(seats[1..]); if seats[0].totalBet > rest then seats[0].totalBet else rest
  }

  lemma {:induction false} MaxBetBounds(seats: seq<Seat>)
    ensures MaxBet(seats) >= 0 && forall i :: 0 <= i < |seats| ==> seats[i].totalBet <= MaxBet(seats)
    ensures Capped(seats, MaxBet(seats)) == SumTotalBets(seats)
  {
    CappedByMax(seats, MaxBet(seats));
  }

  lemma {:induction false} CappedByMax(seats: seq<Seat>, cap: int)
    requires cap >= MaxBet(seats)
    ensures MaxBet(seats) >= 0 && forall i :: 0 <= i < |seats| ==> seats[i].totalBet <= cap
    ensures Capped(seats, cap) == SumTotalBets(seats)
  {
    if seats != [] {
      CappedByMax(seats[1..], cap);
      assert forall i :: 1 <= i < |seats| ==> seats[i] == seats[1..][i - 1];
    }
  }

  lemma {:induction false} SortedContributors(seats: seq<Seat>) returns (sorted: seq<nat>)
    requires BetsFit(seats)
    ensures sorted == SortByBet(Contributors(seats, 0), seats)
    ensures Positions(sorted, seats) && ByBet(sorted, seats) && Distinct(sorted) && AtLeast(sorted, seats, 0)
    ensures forall x :: x in sorted <==> 0 <= x < |seats| && seats[x].totalBet > 0
    ensures forall cap :: cap >= 0 ==> CappedAbove(sorted, seats, cap, 0) == Capped(seats, cap)
  {
    var ix := Contributors(seats, 0);
    sorted := SortByBet(ix, seats);
    ContributorsDistinct(seats, 0);
    SortSorted(ix, seats);
    forall k | 0 <= k < |sorted| ensures seats[sorted[k]].totalBet >= 0 { assert sorted[k] in sorted; }
    forall cap | cap >= 0 ensures CappedAbove(sorted, seats, cap, 0) == Capped(seats, cap) {
      SortCapped(ix, seats, cap, 0);
      ContributorsCapped(seats, 0, cap);
      assert seats[0..] == seats;
    }
  }

  lemma {:induction false} CappedAtZero(seats: seq<Seat>)
    requires BetsFit(seats)
    ensures Capped(seats, 0) == 0
  {
    if seats != [] {
      CappedAtZero(seats[1..]);
    }
  }

  lemma {:induction false} LayersFair(sorted: seq<nat>, seats: seq<Seat>, p: nat)
    requires Positions(sorted, seats) && ByBet(sorted, seats) && Distinct(sorted) && AtLeast(sorted, seats, 0)
    requires BetsFit(seats) && p < |seats| && !seats[p].folded && (p in sorted <==> seats[p].totalBet > 0)
    requires CappedAbove(sorted, seats, seats[p].totalBet, 0) == Capped(seats, seats[p].totalBet)
    requires PotsOn(Layers(sorted, seats, 0), seats)
    ensures EligibleFor(Layers(sorted, seats, 0), seats, p) == Capped(seats, seats[p].totalBet)
  {
    if p in sorted {
      LayersShare(sorted, seats, 0, p);
    } else {
      assert seats[p].totalBet == 0;
      LayersOutside(sorted, seats, 0, p);
      CappedAtZero(seats);
    }
  }

  /** Fairness: the pots a live player can win hold exactly what they matched of everyone's bets. */
  lemma {:induction false} SidePotFairness(seats: seq<Seat>, p: nat)
    requires BetsFit(seats) && p < |seats| && !seats[p].folded
    ensures EligibleFor(PotsOf(seats), seats, p) == Capped(seats, seats[p].totalBet)
  {
    var sorted := SortedContributors(seats);
    var layers := Layers(sorted, seats, 0);
    LayersOn(sorted, seats, 0);
    LayersFair(sorted, seats, p);
    LayersAreGood(sorted, seats, 0);
    if layers != [] {
      GoodIsSound(layers, sorted, seats, 0);
      SoundListed(layers, sorted, seats);
      MergeKeepsShare(layers[0], layers[1..], seats, p);
    }
  }

  /** The pots hold every chip bet, and each is for strictly fewer live players than the one before. */
  lemma {:induction false} SidePotsComplete(seats: seq<Seat>)
    requires BetsFit(seats)
    ensures Total(PotsOf(seats)) == SumTotalBets(seats)
    ensures StrictChain(PotsOf(seats), seats)
    ensures var sorted := SortByBet(Contributors(seats, 0), seats); Sound(PotsOf(seats), sorted, seats)
  {
    var sorted := SortedContributors(seats);
    var layers := Layers(sorted, seats, 0);
    LayersOn(sorted, seats, 0);
    MaxBetBounds(seats);
    LayersTotal(sorted, seats, 0, MaxBet(seats));
    LayersAreGood(sorted, seats, 0);
    if layers != [] {
      GoodIsSound(layers, sorted, seats, 0);
      SoundListed(layers, sorted, seats);
      MergeKeepsTotal(layers[0], layers[1..], seats);
      MergeNests(layers[0], layers[1..], seats);
      MergeSound(layers[0], layers[1..], sorted, seats);
    }
  }
}
