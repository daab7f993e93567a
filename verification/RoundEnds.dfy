/** When a street closes: exactly when the hand is down to one player or no bet is unmatched. */
module RoundEnds {
  import opened Tables
  import opened Betting
  import opened BettingInvariants
  import opened HandProgress
  import opened SidePots
  import opened ShowdownProofs

  /** All but one have folded. */
  predicate OneLeft(seats: seq<Seat>) {
    forall i, j :: 0 <= i < j < |seats| ==> seats[i].folded || seats[j].folded
  }

  /** Whoever has neither folded nor gone all in has acted and put in at least the bet. */
  predicate Matched(seats: seq<Seat>, bet: int) {
    forall i :: 0 <= i < |seats| && !seats[i].folded && !seats[i].allIn ==>
      seats[i].hasActed && seats[i].roundBet >= bet
  }

  lemma {:induction false} NoneLive(seats: seq<Seat>)
    ensures CountLive(seats) == 0 <==> forall i :: 0 <= i < |seats| ==> seats[i].folded
  {
    if seats != [] {
      NoneLive(seats[1..]);
      assert forall i :: 1 <= i < |seats| ==> seats[i] == seats[1..][i - 1];
    }
  }

  lemma {:induction false} OneLeftCount(seats: seq<Seat>)
    ensures CountLive(seats) <= 1 <==> OneLeft(seats)
  {
    if seats != [] {
      var rest := seats[1..];
      OneLeftCount(rest);
      NoneLive(rest);
      assert forall i :: 1 <= i < |seats| ==> seats[i] == rest[i - 1];
      if OneLeft(seats) {
        forall i, j | 0 <= i < j < |rest| ensures rest[i].folded || rest[j].folded {
          assert seats[i + 1].folded || seats[j + 1].folded;
        }
      }
    }
  }

  /** What the engine tests for the end of a round comes to. */
  lemma {:induction false} CompleteMeans(u: Table)
    ensures IsBettingRoundComplete(u) <==> OneLeft(u.seats) || Matched(u.seats, u.currentBet)
  {
    OneLeftCount(u.seats);
    NobodyActionable(u.seats);
    assert Matched(u.seats, u.currentBet) <==> forall i :: 0 <= i < |u.seats| ==> !Owes(u.seats[i], u.currentBet);
  }

  /** The hand has moved on to a later street, or is over. */
  predicate MovedOn(t: Table, r: Table) {
    r.phaseIndex > t.phaseIndex || r.intermission
  }

  /** A decision closes the street exactly if it leaves one player, or nobody with a turn or a bet to match. */
  lemma {:induction false} StreetCloses(t: Table, d: Decision)
    requires InPlay(t) && Legal(t, Seated(t), d.action)
    ensures var u := ApplyDecision(t, Seated(t), d.action, d.amount);
      MovedOn(t, Act(t, d)) <==> OneLeft(u.seats) || Matched(u.seats, u.currentBet)
  {
    var u := ApplyDecision(t, Seated(t), d.action, d.amount);
    DecisionKeeps(t, Seated(t), d.action, d.amount);
    CompleteMeans(u);
    PassTurnIs(u);
    if IsBettingRoundComplete(u) {
      StreetAdvances(u);
    }
  }

  /** An automatic step at a finished round closes the street. */
  lemma {:induction false} StepCloses(t: Table, shuffled: seq<string>, bot: Decision)
    requires Books(t) && !t.gameFinished && (OneLeft(t.seats) || Matched(t.seats, t.currentBet))
    ensures var (r, moved) := AdvanceOneStep(t, shuffled, bot);
      moved && MovedOn(t, r)
  {
    CompleteMeans(t);
    StreetAdvances(t);
  }

  // ---- Over runs ----

  lemma {:induction false} PlaySnoc(t: Table, ds: seq<Decision>, n: nat)
    requires n < |ds| && Accepted(t, ds)
    ensures var b := Play(t, ds[..n]);
      && !b.intermission && b.seats != [] && Legal(b, Seated(b), ds[n].action)
      && Play(t, ds[..n + 1]) == Act(b, ds[n])
    decreases n
  {
    if n == 0 {
      assert ds[..1] == [ds[0]] && [ds[0]][1..] == [] && ds[..0] == [];
    } else {
      PlaySnoc(Act(t, ds[0]), ds[1..], n - 1);
      assert ds[..n][1..] == ds[1..][..n - 1] && ds[..n + 1][1..] == ds[1..][..n];
    }
  }

  lemma {:induction false} AcceptedPrefix(t: Table, ds: seq<Decision>, n: nat)
    requires n <= |ds| && Accepted(t, ds)
    ensures Accepted(t, ds[..n])
    decreases n
  {
    if n > 0 {
      AcceptedPrefix(Act(t, ds[0]), ds[1..], n - 1);
      assert ds[..n][1..] == ds[1..][..n - 1];
    }
  }

  lemma {:induction false} StillInPlay(t: Table, ds: seq<Decision>, n: nat)
    requires InPlay(t) && n < |ds| && Accepted(t, ds)
    ensures InPlay(Play(t, ds[..n]))
  {
    AcceptedPrefix(t, ds, n);
    EveryHandEnds(t, ds[..n]);
    PlaySnoc(t, ds, n);
  }

  /** Over every run of decisions, no street ever closes over an unmatched bet, and none stays open without one. */
  lemma {:induction false} StreetsClose(t: Table, ds: seq<Decision>, n: nat)
    requires InPlay(t) && Accepted(t, ds) && n < |ds|
    ensures var b := Play(t, ds[..n]);
      && InPlay(b)
      && var u := ApplyDecision(b, Seated(b), ds[n].action, ds[n].amount);
      MovedOn(b, Play(t, ds[..n + 1])) <==> OneLeft(u.seats) || Matched(u.seats, u.currentBet)
  {
    StillInPlay(t, ds, n);
    PlaySnoc(t, ds, n);
    StreetCloses(Play(t, ds[..n]), ds[n]);
  }

  // ---- Calls for less ----

  /** A call for less than the bet never closes a street that others are still in. */
  lemma {:induction false} UnderCallStaysOpen(t: Table, amount: int)
    requires InPlay(t)
    requires var s := t.seats[Seated(t)]; 0 < amount < t.currentBet - s.roundBet && amount < s.chips
    ensures !MovedOn(t, Act(t, Decision(Call, amount)))
  {
    var i := Seated(t);
    var d, s := Decision(Call, amount), t.seats[i];
    var u := ApplyDecision(t, i, Call, amount);
    StreetCloses(t, d);
    CompleteMeans(t);
    assert u.seats[i].roundBet == s.roundBet + amount && !u.seats[i].folded && !u.seats[i].allIn;
    var a, b :| 0 <= a < b < |t.seats| && !t.seats[a].folded && !t.seats[b].folded;
    assert !u.seats[a].folded && !u.seats[b].folded;
  }

  /** Blinds of five and ten, and three players to act: the dealer first. */
  function ThreeToAct(): Table {
    var a := Seat("a", false, 1000, 0, 0, false, false, false, true, false, false, false, CARD_BACKS);
    var b := Seat("b", false, 995, 5, 5, false, false, false, false, true, false, false, CARD_BACKS);
    var c := Seat("c", false, 990, 10, 10, false, false, false, false, false, true, false, CARD_BACKS);
    Table([a, b, c], 0, 15, 10, 10, 0, 0, 5, 10, 0, true, false, false, [], [], [])
  }

  lemma {:induction false} ThreeSums(a: Seat, b: Seat, c: Seat)
    ensures SumTotalBets([a, b, c]) == a.totalBet + b.totalBet + c.totalBet
    ensures SumChips([a, b, c]) == a.chips + b.chips + c.chips
  {
    assert [a, b, c][1..] == [b, c] && [b, c][1..] == [c] && [c][1..] == [];
    assert SumTotalBets([c]) == c.totalBet && SumChips([c]) == c.chips;
    assert SumTotalBets([b, c]) == b.totalBet + c.totalBet && SumChips([b, c]) == b.chips + c.chips;
  }

  lemma {:induction false} ThreeInPlay()
    ensures InPlay(ThreeToAct())
  {
    var t := ThreeToAct();
    ThreeSums(t.seats[0], t.seats[1], t.seats[2]);
    assert !t.seats[0].folded && !t.seats[1].folded && !t.seats[0].hasActed && !t.seats[0].allIn;
    CompleteMeans(t);
  }

  /** A decision that leaves two in the hand, one of them owing, passes the turn to the next player who can act. */
  lemma {:induction false} Passes(t: Table, d: Decision, u: Table, other: nat, owing: nat, next: nat)
    requires t.seats != [] && u == ApplyDecision(t, Seated(t), d.action, d.amount) && |u.seats| == |t.seats|
    requires other < |u.seats| && owing < |u.seats| && other != owing
    requires !u.seats[other].folded && !u.seats[owing].folded && !u.seats[owing].allIn
    requires !u.seats[owing].hasActed || u.seats[owing].roundBet < u.currentBet
    requires next == (u.current + 1) % |u.seats| && !u.seats[next].folded && !u.seats[next].allIn
    ensures Act(t, d) == u.(current := next)
  {
    var a, b := if other < owing then other else owing, if other < owing then owing else other;
    assert !u.seats[a].folded && !u.seats[b].folded && a < b;
    CompleteMeans(u);
  }

  /** The dealer has called with one chip. */
  function Undercalled(): Table {
    var t := ThreeToAct();
    var a := t.seats[0].(chips := 999, roundBet := 1, totalBet := 1, hasActed := true);
    t.(seats := [a, t.seats[1], t.seats[2]], pot := 16, current := 1)
  }

  /** And the small blind with the rest of the bet. */
  function Called(): Table {
    var t := Undercalled();
    var b := t.seats[1].(chips := 990, roundBet := 10, totalBet := 10, hasActed := true);
    t.(seats := [t.seats[0], b, t.seats[2]], pot := 21, current := 2)
  }

  /** And the big blind has checked. */
  function Checked(): Table {
    var t := Called();
    t.(seats := [t.seats[0], t.seats[1], t.seats[2].(hasActed := true)], current := 0)
  }

  lemma {:induction false} DealerUndercalls()
    ensures Act(ThreeToAct(), Decision(Call, 1)) == Undercalled()
  {
    var u := Undercalled().(current := 0);
    assert ApplyDecision(ThreeToAct(), 0, Call, 1) == u;
    Passes(ThreeToAct(), Decision(Call, 1), u, 0, 1, 1);
  }

  lemma {:induction false} SmallBlindCalls()
    ensures Act(Undercalled(), Decision(Call, 0)) == Called()
  {
    var u := Called().(current := 1);
    assert ApplyDecision(Undercalled(), 1, Call, 0) == u;
    Passes(Undercalled(), Decision(Call, 0), u, 0, 2, 2);
  }

  lemma {:induction false} BigBlindChecks()
    ensures Act(Called(), Decision(Check, 0)) == Checked()
  {
    var u := Checked().(current := 2);
    assert ApplyDecision(Called(), 2, Check, 0) == u;
    Passes(Called(), Decision(Check, 0), u, 1, 0, 0);
  }

  /** The dealer calls with one chip, the small blind calls and the big blind checks: the dealer has the turn again. */
  lemma {:induction false} UnderCallExample()
    ensures var t, ds := ThreeToAct(), [Decision(Call, 1), Decision(Call, 0), Decision(Check, 0)];
      && InPlay(t) && Accepted(t, ds)
      && var r := Play(t, ds); !MovedOn(t, r) && |r.seats| == 3 && r.current == 0 && r.seats[0].roundBet == 1
  {
    ThreeInPlay();
    DealerUndercalls();
    SmallBlindCalls();
    BigBlindChecks();
    ThreeDecisions(ThreeToAct(), Undercalled(), Called(), Checked(),
                   Decision(Call, 1), Decision(Call, 0), Decision(Check, 0));
  }

  lemma {:induction false} ThreeDecisions(
      t0: Table, t1: Table, t2: Table, t3: Table, d: Decision, e: Decision, f: Decision)
    requires t0.seats != [] && t1.seats != [] && t2.seats != []
    requires !t0.intermission && !t1.intermission && !t2.intermission
    requires Act(t0, d) == t1 && Act(t1, e) == t2 && Act(t2, f) == t3
    requires Legal(t0, Seated(t0), d.action) && Legal(t1, Seated(t1), e.action) && Legal(t2, Seated(t2), f.action)
    ensures Accepted(t0, [d, e, f]) && Play(t0, [d, e, f]) == t3
  {
    assert [d, e, f][1..] == [e, f] && [e, f][1..] == [f] && [f][1..] == [];
    assert Accepted(t2, [f]) && Play(t2, [f]) == t3;
    assert Accepted(t1, [e, f]) && Play(t1, [e, f]) == t3;
  }
}
