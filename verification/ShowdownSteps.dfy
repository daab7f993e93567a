/** The showdown's loops: side pots grown and merged in place, and the list of winners of one pot. */
module ShowdownSteps {
  import opened Sequences
  import opened Cards
  import opened BestHand
  import opened HandOrder
  import opened SolverTheorem
  import opened HandSolver
  import opened Tables
  import opened SidePots
  import opened SidePotProofs
  import opened Showdowns

  // ---- Side pots ----

  method IndexOf(sorted: seq<nat>, target: nat) returns (ix: nat)
    ensures ix == 0 || ix < |sorted|
    ensures target in sorted ==> ix < |sorted| && sorted[ix] == target
  {
    for i := 0 to |sorted|
      invariant target !in sorted[..i]
    {
      if sorted[i] == target {
        return i;
      }
    }
    return 0;
  }

  lemma {:induction false} LiveStep(ix: seq<nat>, k: nat, seats: seq<Seat>)
    requires Positions(ix, seats) && k < |ix|
    ensures Positions(ix[k..], seats) && Positions(ix[k + 1..], seats)
    ensures LiveOf(ix[k..], seats) == (if seats[ix[k]].folded then [] else [ix[k]]) + LiveOf(ix[k + 1..], seats)
  {
    assert ix[k..][1..] == ix[k + 1..];
  }

  method LiveAmong(ix: seq<nat>, seats: seq<Seat>) returns (live: seq<nat>)
    requires Positions(ix, seats)
    ensures live == LiveOf(ix, seats)
  {
    live := [];
    assert ix[0..] == ix;
    ghost var left := LiveOf(ix, seats);
    for k := 0 to |ix|
      invariant left == LiveOf(ix[k..], seats) && live + left == LiveOf(ix, seats)
    {
      LiveStep(ix, k, seats);
      left := LiveOf(ix[k + 1..], seats);
      var c := ix[k];
      Regroup(live, if seats[c].folded then [] else [c], left);
      if !seats[c].folded {
        live := live + [c];
      }
    }
  }

  method IsSubset(a: seq<nat>, b: seq<nat>) returns (yes: bool)
    ensures yes <==> Subset(a, b)
  {
    var members: set<nat> := {};
    for k := 0 to |b|
      invariant forall x :: x in members <==> x in b[..k]
    {
      members := members + {b[k]};
    }
    assert b[..|b|] == b;
    for k := 0 to |a|
      invariant Subset(a[..k], b)
    {
      if a[k] !in members {
        return false;
      }
    }
    assert a[..|a|] == a;
    return true;
  }

  method CutLayers(sorted: seq<nat>, seats: seq<Seat>) returns (pots: seq<SidePot>)
    requires Positions(sorted, seats) && Distinct(sorted)
    ensures pots == Layers(sorted, seats, 0)
  {
    pots := [];
    var prev := 0;
    for n := 0 to |sorted|
      invariant pots + Layers(sorted[n..], seats, prev) == Layers(sorted, seats, 0)
    {
      var lvl := seats[sorted[n]].totalBet;
      var diff := lvl - prev;
      assert sorted[n..][1..] == sorted[n + 1..];
      if diff > 0 {
        var start := IndexOf(sorted, sorted[n]);
        assert start == n;
        var eligible := sorted[start..];
        pots := pots + [SidePot(diff * |eligible|, eligible)];
        prev := lvl;
      }
    }
  }

  /** Merging from pot `i` on, when it absorbs its successor and when it does not. */
  lemma {:induction false} MergeStep(pots: seq<SidePot>, i: nat, seats: seq<Seat>)
    requires PotsOn(pots, seats) && i + 1 < |pots|
    ensures PotsOn(pots[i..], seats) && PotsOn(pots[i + 1..], seats) && PotsOn(pots[i + 2..], seats)
    ensures var merged := pots[i].(amount := pots[i].amount + pots[i + 1].amount);
      Merge(pots[i..], seats)
        == if SameLive(pots[i], pots[i + 1], seats) then MergeFrom(merged, pots[i + 2..], seats)
           else [pots[i]] + Merge(pots[i + 1..], seats)
  {
    assert pots[i..][1..] == pots[i + 1..];
    assert pots[i + 1..][1..] == pots[i + 2..];
  }

  method MayMerge(a: SidePot, b: SidePot, seats: seq<Seat>) returns (yes: bool)
    requires Positions(a.eligible, seats) && Positions(b.eligible, seats)
    ensures yes <==> SameLive(a, b, seats)
  {
    var liveA := LiveAmong(a.eligible, seats);
    var liveB := LiveAmong(b.eligible, seats);
    var within := IsSubset(liveA, liveB);
    yes := |liveA| == |liveB| && within;
  }

  /** With the pots before `i` done and the rest merged the result is `all`. */
  ghost predicate MergesTo(pots: seq<SidePot>, i: nat, seats: seq<Seat>, all: seq<SidePot>) {
    i <= |pots| && PotsOn(pots, seats) && PotsOn(pots[i..], seats) && pots[..i] + Merge(pots[i..], seats) == all
  }

  /** Pot `i` absorbs pot `i + 1`: what is still to merge stays the same. */
  lemma {:induction false} Absorbs(pots: seq<SidePot>, i: nat, seats: seq<Seat>, all: seq<SidePot>, next: seq<SidePot>)
    requires MergesTo(pots, i, seats, all) && i + 1 < |pots| && SameLive(pots[i], pots[i + 1], seats)
    requires next == pots[..i] + [pots[i].(amount := pots[i].amount + pots[i + 1].amount)] + pots[i + 2..]
    ensures |next| == |pots| - 1 && MergesTo(next, i, seats, all)
  {
    MergeStep(pots, i, seats);
    assert next[i..][1..] == pots[i + 2..];
    assert next[..i] == pots[..i];
  }

  lemma {:induction false} Passes(pots: seq<SidePot>, i: nat, seats: seq<Seat>, all: seq<SidePot>)
    requires MergesTo(pots, i, seats, all) && i + 1 < |pots| && !SameLive(pots[i], pots[i + 1], seats)
    ensures MergesTo(pots, i + 1, seats, all)
  {
    MergeStep(pots, i, seats);
    assert pots[..i + 1] == pots[..i] + [pots[i]];
    Regroup(pots[..i], [pots[i]], Merge(pots[i + 1..], seats));
  }

  lemma {:induction false} Merged(pots: seq<SidePot>, i: nat, seats: seq<Seat>, all: seq<SidePot>)
    requires MergesTo(pots, i, seats, all) && i + 1 >= |pots|
    ensures pots == all
  {
    if i < |pots| {
      assert pots[i..] == [pots[i]];
    }
    assert pots[..i] + pots[i..] == pots;
  }

  /** Shrinks the list in place, as long as two neighbours have the same live players. */
  method MergePots(layers: seq<SidePot>, seats: seq<Seat>) returns (pots: seq<SidePot>)
    requires PotsOn(layers, seats)
    ensures pots == Merge(layers, seats)
  {
    pots := layers;
    var i := 0;
    assert pots[0..] == pots;
    ghost var all := Merge(layers, seats);
    while i < |pots| - 1
      invariant i >= 0 && MergesTo(pots, i, seats, all)
      decreases |pots| - i
    {
      var merge := MayMerge(pots[i], pots[i + 1], seats);
      if merge {
        var next := pots[..i] + [pots[i].(amount := pots[i].amount + pots[i + 1].amount)] + pots[i + 2..];
        Absorbs(pots, i, seats, all, next);
        pots := next;
      } else {
        Passes(pots, i, seats, all);
        i := i + 1;
      }
    }
    Merged(pots, i, seats, all);
  }

  method BuildPots(contenders: seq<nat>, seats: seq<Seat>) returns (pots: seq<SidePot>)
    requires Positions(contenders, seats) && Distinct(contenders)
    ensures pots == BuildSidePots(contenders, seats)
  {
    var sorted := SortByBet(contenders, seats);
    SortSorted(contenders, seats);
    LayersOn(sorted, seats, 0);
    var layers := CutLayers(sorted, seats);
    pots := MergePots(layers, seats);
  }

  // ---- The winners of a contested pot ----

  /** The cards a player brings to the showdown are decided by the solver. */
  ghost predicate Decidable(codes: seq<string>) {
    (forall c :: c in codes ==> DeckCode(c)) && Solvable(ParseAll(codes))
  }

  /** `h` is the solved hand of position `p`. */
  ghost predicate SolvedFor(h: Hand, p: nat, seats: seq<Seat>, board: seq<string>)
    requires p < |seats|
    reads h
  {
    Decides(h.rank, h.cards, ParseAll(HandOf(seats[p], board)))
  }

  ghost predicate AllSolved(hands: seq<Hand>, players: seq<nat>, seats: seq<Seat>, board: seq<string>)
    requires Positions(players, seats)
    reads hands
  {
    |hands| == |players| && forall i :: 0 <= i < |hands| ==> SolvedFor(hands[i], players[i], seats, board)
  }

  /** Solved hands lose exactly as the exhaustive values of their players' cards do. */
  lemma {:induction false} SolvedCompare(g: Hand, h: Hand, p: nat, q: nat, seats: seq<Seat>, board: seq<string>)
    requires p < |seats| && q < |seats| && SolvedFor(g, p, seats, board) && SolvedFor(h, q, seats, board)
    ensures g.Compare(h) <= 0
       <==> Compare(Strength(HandOf(seats[q], board)), Strength(HandOf(seats[p], board))) <= 0
  {
    DecidedComparison(g.rank, g.cards, ParseAll(HandOf(seats[p], board)), h.rank, h.cards,
        ParseAll(HandOf(seats[q], board)));
    CompareOpposite(Strength(HandOf(seats[p], board)), Strength(HandOf(seats[q], board)));
  }

  lemma {:induction false} UnbeatenIs(h: Hand, i: nat, hands: seq<Hand>, players: seq<nat>, seats: seq<Seat>,
      board: seq<string>)
    requires Positions(players, seats) && AllSolved(hands, players, seats, board)
    requires i < |hands| && hands[i] == h
    ensures Unbeaten(h, hands) <==> Unbeatable(players[i], players, seats, board)
  {
    forall k | 0 <= k < |hands|
      ensures h.Compare(hands[k]) <= 0
         <==> Compare(Strength(HandOf(seats[players[k]], board)), Strength(HandOf(seats[players[i]], board))) <= 0
    {
      SolvedCompare(h, hands[k], players[i], players[k], seats, board);
    }
  }

  /** The players whose hands tie with `w`, in order. */
  ghost function TiedPlayers(hands: seq<Hand>, players: seq<nat>, w: Hand): seq<nat>
    requires |hands| == |players|
    reads w, hands
  {
    if hands == [] then []
    else (if hands[0].Compare(w) == 0 then [players[0]] else []) + TiedPlayers(hands[1..], players[1..], w)
  }

  lemma {:induction false} TiedIsBest(
      hands: seq<Hand>, players: seq<nat>, all: seq<nat>, w: Hand, seats: seq<Seat>, board: seq<string>)
    requires |hands| == |players| && Positions(players, seats) && Positions(all, seats)
    requires forall i :: 0 <= i < |hands| ==> (hands[i].Compare(w) == 0 <==> Unbeatable(players[i], all, seats, board))
    ensures TiedPlayers(hands, players, w) == BestOfLive(players, all, seats, board)
    ensures |TiedWith(hands, w)| == |BestOfLive(players, all, seats, board)|
  {
    if hands != [] {
      TiedIsBest(hands[1..], players[1..], all, w, seats, board);
    }
  }

  /** A winning hand ties with exactly the hands of the players no one beats. */
  lemma {:induction false} WinnersAreBest(hands: seq<Hand>, players: seq<nat>, w: Hand, seats: seq<Seat>,
      board: seq<string>)
    requires Positions(players, seats) && AllSolved(hands, players, seats, board)
    requires w in hands && Unbeaten(w, hands)
    ensures TiedPlayers(hands, players, w) == BestOfLive(players, players, seats, board)
    ensures |TiedWith(hands, w)| == |BestOfLive(players, players, seats, board)|
  {
    LongEnough(hands, players, seats, board);
    TiedAreUnbeaten(hands, w);
    forall i | 0 <= i < |hands| ensures hands[i].Compare(w) == 0 <==> Unbeatable(players[i], players, seats, board) {
      UnbeatenIs(hands[i], i, hands, players, seats, board);
    }
    TiedIsBest(hands, players, players, w, seats, board);
  }

  lemma {:induction false} LongEnough(hands: seq<Hand>, players: seq<nat>, seats: seq<Seat>, board: seq<string>)
    requires Positions(players, seats) && AllSolved(hands, players, seats, board)
    ensures forall h :: h in hands ==> |h.cards| >= 5
  {
    forall h | h in hands ensures |h.cards| >= 5 {
      var i :| 0 <= i < |hands| && hands[i] == h;
      assert SolvedFor(hands[i], players[i], seats, board);
    }
  }

  lemma {:induction false} RepeatSnoc(tied: seq<nat>, k: nat)
    ensures Repeat(tied, k) + tied == Repeat(tied, k + 1)
  {
    if k > 0 {
      RepeatSnoc(tied, k - 1);
      assert Repeat(tied, k) + tied == tied + (Repeat(tied, k - 1) + tied);
    }
  }

  lemma {:induction false} DeckRecognised(codes: seq<string>)
    requires Decidable(codes)
    ensures forall i :: 0 <= i < |codes| ==> Recognised(NewCard(codes[i]))
  {
    forall i | 0 <= i < |codes| ensures Recognised(NewCard(codes[i])) {
      assert codes[i] in codes;
      ParsersAgree(codes[i]);
    }
  }

  method SolveHands(eligible: seq<nat>, seats: seq<Seat>, board: seq<string>) returns (hands: seq<Hand>)
    requires Positions(eligible, seats)
    requires forall k :: 0 <= k < |eligible| ==> Decidable(HandOf(seats[eligible[k]], board))
    ensures AllSolved(hands, eligible, seats, board)
  {
    hands := [];
    for i := 0 to |eligible|
      invariant |hands| == i && forall k :: 0 <= k < i ==> SolvedFor(hands[k], eligible[k], seats, board)
    {
      var codes := HandOf(seats[eligible[i]], board);
      DeckRecognised(codes);
      var h := Solve(codes);
      hands := hands + [h];
    }
  }

  /** Appends every player whose hand ties with `w`. */
  method AppendTied(winners: seq<nat>, hands: seq<Hand>, eligible: seq<nat>, w: Hand) returns (r: seq<nat>)
    requires |hands| == |eligible|
    ensures r == winners + TiedPlayers(hands, eligible, w)
  {
    r := winners;
    for i := 0 to |hands|
      invariant r + TiedPlayers(hands[i..], eligible[i..], w) == winners + TiedPlayers(hands, eligible, w)
    {
      assert hands[i..][1..] == hands[i + 1..] && eligible[i..][1..] == eligible[i + 1..];
      if hands[i].Compare(w) == 0 {
        r := r + [eligible[i]];
      }
    }
  }

  lemma {:induction false} AllWinnersAreBest(
      hands: seq<Hand>, players: seq<nat>, best: seq<Hand>, tied: seq<nat>, seats: seq<Seat>, board: seq<string>)
    requires Positions(players, seats) && AllSolved(hands, players, seats, board)
    requires tied == BestOfLive(players, players, seats, board)
    requires best != [] && best == TiedWith(hands, best[0]) && forall h :: h in best <==>
      h in hands && Unbeaten(h, hands)
    ensures |best| == |tied| && forall j :: 0 <= j < |best| ==> TiedPlayers(hands, players, best[j]) == tied
  {
    forall j | 0 <= j < |best| ensures TiedPlayers(hands, players, best[j]) == tied {
      assert best[j] in best;
      WinnersAreBest(hands, players, best[j], seats, board);
    }
    assert best[0] in best;
    WinnersAreBest(hands, players, best[0], seats, board);
  }

  /** For each winning hand, everyone whose hand ties with it. */
  method ListTied(hands: seq<Hand>, eligible: seq<nat>, best: seq<Hand>, ghost tied: seq<nat>)
    returns (winners: seq<nat>)
    requires |hands| == |eligible|
    requires forall j :: 0 <= j < |best| ==> TiedPlayers(hands, eligible, best[j]) == tied
    ensures winners == Repeat(tied, |best|)
  {
    winners := [];
    for j := 0 to |best|
      invariant winners == Repeat(tied, j)
    {
      winners := AppendTied(winners, hands, eligible, best[j]);
      RepeatSnoc(tied, j);
    }
  }

  /** Every tied player once for each winning hand, so each of `k` of them is listed `k` times. */
  method PotWinners(eligible: seq<nat>, seats: seq<Seat>, board: seq<string>) returns (winners: seq<nat>)
    requires Positions(eligible, seats) && eligible != []
    requires forall k :: 0 <= k < |eligible| ==> Decidable(HandOf(seats[eligible[k]], board))
    ensures var tied := BestOfLive(eligible, eligible, seats, board); winners == Repeat(tied, |tied|)
  {
    var hands := SolveHands(eligible, seats, board);
    LongEnough(hands, eligible, seats, board);
    var best := Winners(hands);
    ghost var tied := BestOfLive(eligible, eligible, seats, board);
    AllWinnersAreBest(hands, eligible, best, tied, seats, board);
    winners := ListTied(hands, eligible, best, tied);
  }
}
