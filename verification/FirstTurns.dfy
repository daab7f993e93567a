/** Whose turn it is: who opens a street, who comes next, and which streets are passed over. */
module FirstTurns {
  import opened Arithmetic
  import opened Tables
  import opened Betting
  import opened BettingInvariants
  import opened HandProgress
  import opened HandStart
  import opened Blinds
  import opened Clockwise
  import opened RoundEnds

  // ---- Which rounds are played ----

  /** At most one player can act. */
  predicate OneActs(seats: seq<Seat>) {
    forall i, j :: 0 <= i < j < |seats| ==> seats[i].folded || seats[i].allIn || seats[j].folded || seats[j].allIn
  }

  /** Nobody who can act has put in less than somebody still in the hand. */
  predicate NobodyBehind(seats: seq<Seat>) {
    forall i, j :: 0 <= i < |seats| && 0 <= j < |seats| && !seats[i].folded && !seats[i].allIn && !seats[j].folded ==>
      seats[i].roundBet >= seats[j].roundBet
  }

  lemma {:induction false} OneActsCount(seats: seq<Seat>)
    ensures CountActionable(seats) <= 1 <==> OneActs(seats)
  {
    if seats != [] {
      var rest := seats[1..];
      OneActsCount(rest);
      CountsActionable(rest);
      assert forall i :: 1 <= i < |seats| ==> seats[i] == rest[i - 1];
      if OneActs(seats) {
        forall i, j | 0 <= i < j < |rest| ensures rest[i].folded || rest[i].allIn || rest[j].folded || rest[j].allIn {
          assert seats[i + 1] == rest[i] && seats[j + 1] == rest[j];
        }
      }
    }
  }

  lemma {:induction false} MaxLive(seats: seq<Seat>)
    ensures MaxLiveBet(seats) >= 0
    ensures forall j :: 0 <= j < |seats| && !seats[j].folded ==> seats[j].roundBet <= MaxLiveBet(seats)
    ensures MaxLiveBet(seats) > 0 ==>
      exists j :: 0 <= j < |seats| && !seats[j].folded && seats[j].roundBet == MaxLiveBet(seats)
  {
    if seats != [] {
      var rest := seats[1..];
      MaxLive(rest);
      assert forall i :: 1 <= i < |seats| ==> seats[i] == rest[i - 1];
      if MaxLiveBet(rest) > 0 {
        var j :| 0 <= j < |rest| && !rest[j].folded && rest[j].roundBet == MaxLiveBet(rest);
        assert seats[j + 1] == rest[j];
      }
    }
  }

  predicate NoDebts(seats: seq<Seat>) {
    forall i :: 0 <= i < |seats| ==> seats[i].roundBet >= 0
  }

  lemma {:induction false} SettledMeans(seats: seq<Seat>)
    requires NoDebts(seats)
    ensures IsAllInSettled(seats) <==> NobodyBehind(seats)
  {
    MaxLive(seats);
    if NobodyBehind(seats) && MaxLiveBet(seats) > 0 {
      var j :| 0 <= j < |seats| && !seats[j].folded && seats[j].roundBet == MaxLiveBet(seats);
      forall i | 0 <= i < |seats| && Actionable(seats[i]) ensures seats[i].roundBet >= MaxLiveBet(seats) {
        assert seats[i].roundBet >= seats[j].roundBet;
      }
    }
  }

  // ---- An opened round ----

  /** Nobody has acted, and on a later street nobody has bet. */
  function Cleared(t: Table): (seats: seq<Seat>)
    ensures |seats| == |t.seats|
    ensures forall i :: 0 <= i < |seats| ==>
      seats[i] == t.seats[i].(hasActed := false, roundBet := if t.phaseIndex > 0 then 0 else t.seats[i].roundBet)
  {
    seq(|t.seats|, i requires 0 <= i < |t.seats| =>
      t.seats[i].(hasActed := false, roundBet := if t.phaseIndex > 0 then 0 else t.seats[i].roundBet))
  }

  lemma {:induction false} OpenedIs(t: Table)
    ensures OpenRound(t) == t.(seats := Cleared(t), currentBet := if t.phaseIndex > 0 then 0 else t.currentBet,
                               lastRaise := if t.phaseIndex > 0 then t.bigBlind else t.lastRaise)
  {
    assert OpenRound(t).seats == Cleared(t);
  }

  /** More than one player is in, and not all but one are all in with nothing left to match. */
  predicate Played(t: Table) {
    !OneLeft(t.seats) && !(OneActs(t.seats) && NobodyBehind(Cleared(t)))
  }

  lemma {:induction false} PlayedMeans(t: Table)
    requires NoDebts(t.seats)
    ensures var seats := OpenRound(t).seats;
      Played(t) <==> CountLive(seats) > 1 && !(CountActionable(seats) <= 1 && IsAllInSettled(seats))
  {
    OpenedIs(t);
    var seats := Cleared(t);
    OneLeftCount(seats);
    OneActsCount(seats);
    SettledMeans(seats);
    SameMarks(t);
  }

  lemma {:induction false} SameMarks(t: Table)
    ensures OneLeft(Cleared(t)) <==> OneLeft(t.seats)
    ensures OneActs(Cleared(t)) <==> OneActs(t.seats)
  {
    var seats := Cleared(t);
    assert forall i :: 0 <= i < |seats| ==> seats[i].folded == t.seats[i].folded && seats[i].allIn == t.seats[i].allIn;
  }

  // ---- Who opens ----

  predicate DealerAt(seats: seq<Seat>, d: nat) {
    d < |seats| && forall i :: 0 <= i < |seats| ==> (seats[i].isDealer <==> i == d)
  }

  predicate BigBlindIs(seats: seq<Seat>, b: nat) {
    b < |seats| && forall i :: 0 <= i < |seats| ==> (seats[i].isBigBlind <==> i == b)
  }

  /** Where the search for the first player starts: before the flop with the dealer of two, else behind the big blind;
      later behind the dealer. */
  ghost predicate StartsFrom(t: Table, from: nat) {
    if t.phaseIndex > 0 then from > 0 && DealerAt(t.seats, from - 1)
    else if |t.seats| == 2 then DealerAt(t.seats, from)
    else from > 0 && BigBlindIs(t.seats, from - 1)
  }

  lemma {:induction false} DealerIs(seats: seq<Seat>, d: nat)
    requires DealerAt(seats, d)
    ensures DealerIndex(seats) == d
  {
    var ix := IndexWhere(seats, (s: Seat) => s.isDealer);
    assert seats[d].isDealer;
  }

  lemma {:induction false} BigBlindIndexIs(seats: seq<Seat>, b: nat)
    requires BigBlindIs(seats, b)
    ensures BigBlindIndex(seats) == b
  {
    var ix := IndexWhere(seats, (s: Seat) => s.isBigBlind);
    assert seats[b].isBigBlind;
  }

  lemma {:induction false} FirstToActIs(t: Table, from: nat)
    requires t.seats != [] && t.phaseIndex >= 0 && StartsFrom(t, from)
    ensures FirstToAct(t) == from % |t.seats|
  {
    if t.phaseIndex > 0 {
      DealerIs(t.seats, from - 1);
    } else if |t.seats| == 2 {
      DealerIs(t.seats, from);
      ModIs(from, 0, from, |t.seats|);
    } else {
      BigBlindIndexIs(t.seats, from - 1);
    }
  }

  /** The round of `t` has opened at `r`: bets cleared on a later street, and the turn with the first to act. */
  ghost predicate OpensAt(t: Table, r: Table, from: nat) {
    && r == t.(seats := Cleared(t), current := r.current, raisesThisRound := 0,
               currentBet := if t.phaseIndex > 0 then 0 else t.currentBet,
               lastRaise := if t.phaseIndex > 0 then t.bigBlind else t.lastRaise)
    && FirstOf(CanAct(t.seats), from, r.current)
  }

  lemma {:induction false} FromWraps(marks: seq<bool>, from: nat, c: nat)
    requires marks != [] && FirstOf(marks, from % |marks|, c)
    ensures FirstOf(marks, from, c)
  {
    ModTwice(from, 0, |marks|);
    assert from % |marks| % |marks| == from % |marks|;
  }

  lemma {:induction false} SomeoneActs(t: Table) returns (x: nat)
    requires NoDebts(t.seats) && Played(t)
    ensures x < |t.seats| && !t.seats[x].folded && !t.seats[x].allIn
  {
    var ready := OpenRound(t);
    OpenedIs(t);
    PlayedMeans(t);
    CountsActionable(ready.seats);
    NobodyActionable(ready.seats);
    x :| x < |ready.seats| && Actionable(ready.seats[x]);
  }

  lemma {:induction false} FirstFoundIs(ready: Table, from: nat, x: nat)
    requires 0 <= ready.phaseIndex && StartsFrom(ready, from) && x < |ready.seats| && Actionable(ready.seats[x])
    ensures var r := FirstFound(ready);
      r == ready.(current := r.current, raisesThisRound := 0) && FirstOf(CanAct(ready.seats), from, r.current)
  {
    var first := FirstToAct(ready);
    FirstToActIs(ready, from);
    NextIsFirst(ready.seats, first, first, x);
    FromWraps(CanAct(ready.seats), from, NextActionable(ready.seats, first, |ready.seats|, first));
  }

  lemma {:induction false} RoundFound(t: Table)
    requires t.phaseIndex < SHOWDOWN && NoDebts(t.seats) && Played(t)
    ensures OpenRound(t).seats != [] && StartBettingRound(t) == FirstFound(OpenRound(t))
  {
    PlayedMeans(t);
  }

  lemma {:induction false} OpenedTurn(t: Table, ready: Table, from: nat, x: nat)
    requires ready == OpenRound(t) && 0 <= t.phaseIndex && StartsFrom(t, from)
    requires x < |t.seats| && !t.seats[x].folded && !t.seats[x].allIn
    ensures OpensAt(t, FirstFound(ready), from)
  {
    OpenedIs(t);
    FirstFoundIs(ready, from, x);
    assert CanAct(Cleared(t)) == CanAct(t.seats);
  }

  lemma {:induction false} TurnOpens(t: Table, from: nat)
    requires 0 <= t.phaseIndex < SHOWDOWN && NoDebts(t.seats) && StartsFrom(t, from) && Played(t)
    ensures OpensAt(t, StartBettingRound(t), from)
  {
    var x := SomeoneActs(t);
    RoundFound(t);
    OpenedTurn(t, OpenRound(t), from, x);
  }

  // ---- Streets passed over ----

  lemma {:induction false} RoundLater(t: Table)
    ensures var r := StartBettingRound(t); r.intermission || r.phaseIndex >= t.phaseIndex
    decreases StreetsLeft(t), 1
  {
    if t.phaseIndex < SHOWDOWN {
      StreetLater(OpenRound(t));
    }
  }

  lemma {:induction false} StreetLater(t: Table)
    ensures var r := AdvancePhase(t); r.intermission || r.phaseIndex > t.phaseIndex
    decreases StreetsLeft(t), 0
  {
    AdvanceIs(t);
    if t.phaseIndex + 1 < SHOWDOWN {
      RoundLater(StreetDealtOut(t));
    }
  }

  /** A round is played exactly if more than one is in and somebody has a decision to take: then the turn is with the
      first to act; otherwise the hand moves on. */
  lemma {:induction false} RoundGoes(t: Table, from: nat)
    requires 0 <= t.phaseIndex < SHOWDOWN && !t.intermission && NoDebts(t.seats) && StartsFrom(t, from)
    ensures Played(t) <==> !MovedOn(t, StartBettingRound(t))
    ensures Played(t) ==> OpensAt(t, StartBettingRound(t), from)
  {
    if Played(t) {
      TurnOpens(t, from);
    } else {
      PlayedMeans(t);
      OpenedIs(t);
      StreetLater(OpenRound(t));
    }
  }

  // ---- After the flop ----

  /** The first of a later street: nothing bet yet, and the turn with the first player behind the dealer. */
  ghost predicate Behind(r: Table, d: nat) {
    && FirstOf(CanAct(r.seats), d + 1, r.current) && DealerAt(r.seats, d)
    && r.currentBet == 0 && r.lastRaise == r.bigBlind
    && forall i :: 0 <= i < |r.seats| ==> r.seats[i].roundBet == 0 && !r.seats[i].hasActed
  }

  lemma {:induction false} OpensBehind(t: Table, r: Table, d: nat)
    requires t.phaseIndex > 0 && DealerAt(t.seats, d) && OpensAt(t, r, d + 1)
    ensures r.phaseIndex == t.phaseIndex && Behind(r, d)
  {
    assert CanAct(Cleared(t)) == CanAct(t.seats);
  }

  lemma {:induction false} LaterRound(t: Table, d: nat)
    requires t.phaseIndex > 0 && NoDebts(t.seats) && DealerAt(t.seats, d)
    ensures var r := StartBettingRound(t); r.intermission || (r.phaseIndex >= t.phaseIndex && Behind(r, d))
    decreases StreetsLeft(t), 1
  {
    if t.phaseIndex < SHOWDOWN {
      if Played(t) {
        TurnOpens(t, d + 1);
        OpensBehind(t, StartBettingRound(t), d);
      } else {
        PlayedMeans(t);
        OpenedIs(t);
        NextStreet(OpenRound(t), d);
      }
    }
  }

  /** Whichever street the hand moves on to, the first player clockwise behind the dealer opens it. */
  lemma {:induction false} NextStreet(t: Table, d: nat)
    requires t.phaseIndex >= 0 && NoDebts(t.seats) && DealerAt(t.seats, d)
    ensures var r := AdvancePhase(t); r.intermission || (r.phaseIndex > t.phaseIndex && Behind(r, d))
    decreases StreetsLeft(t), 0
  {
    AdvanceIs(t);
    if t.phaseIndex + 1 < SHOWDOWN {
      LaterRound(StreetDealtOut(t), d);
    }
  }

  /** A dealer who is not alone in being able to act does not open a later street. */
  lemma {:induction false} DealerNotFirst(r: Table, d: nat, x: nat)
    requires Behind(r, d) && x < |r.seats| && x != d && !r.seats[x].folded && !r.seats[x].allIn
    ensures r.current != d
  {
    SelfLast(CanAct(r.seats), d, r.current, x);
  }

  // ---- Turns ----

  /** Where the turn goes after a decision: clockwise to the next player who can act, or on a later street to the first
      behind the dealer. */
  ghost predicate TurnGoes(t: Table, r: Table, d: nat)
    requires t.seats != []
  {
    || r.intermission
    || (r.phaseIndex == t.phaseIndex && FirstOf(CanAct(r.seats), t.current % |t.seats| + 1, r.current))
    || (r.phaseIndex > t.phaseIndex && Behind(r, d))
  }

  lemma {:induction false} AfterTurn(t: Table, d: Decision, b: nat)
    requires InPlay(t) && Legal(t, Seated(t), d.action) && DealerAt(t.seats, b)
    ensures TurnGoes(t, Act(t, d), b)
    ensures Act(t, d).intermission || DealerAt(Act(t, d).seats, b)
  {
    var u := ApplyDecision(t, Seated(t), d.action, d.amount);
    DecisionKeeps(t, Seated(t), d.action, d.amount);
    PassTurnIs(u);
    assert DealerAt(u.seats, b);
    if IsBettingRoundComplete(u) {
      BooksNoDebts(u);
      NextStreet(u, b);
    } else {
      NextTurn(t, u);
    }
  }

  lemma {:induction false} BooksNoDebts(u: Table)
    requires Books(u)
    ensures NoDebts(u.seats)
  {
    forall i | 0 <= i < |u.seats| ensures u.seats[i].roundBet >= 0 {
      assert SeatOk(u.seats[i]);
    }
  }

  lemma {:induction false} NextTurn(t: Table, u: Table)
    requires Books(u) && !IsBettingRoundComplete(u) && |t.seats| == |u.seats| && u.current == t.current
    ensures var r := FindNextActionable(u.(current := u.current + 1));
      r.seats == u.seats && r.phaseIndex == u.phaseIndex
      && FirstOf(CanAct(r.seats), t.current % |t.seats| + 1, r.current)
  {
    var n := |u.seats|;
    var j := SomeoneOwes(u);
    NextIsFirst(u.seats, u.current + 1, u.current + 1, j);
    ModTwice(u.current, 1, n);
  }

  lemma {:induction false} DealerStays(t: Table, ds: seq<Decision>, n: nat, b: nat)
    requires InPlay(t) && Accepted(t, ds) && n < |ds| && DealerAt(t.seats, b)
    ensures InPlay(Play(t, ds[..n])) && DealerAt(Play(t, ds[..n]).seats, b)
    decreases n
  {
    StillInPlay(t, ds, n);
    if n == 0 {
      assert ds[..0] == [];
    } else {
      DealerStays(t, ds, n - 1, b);
      PlaySnoc(t, ds, n - 1);
      AfterTurn(Play(t, ds[..n - 1]), ds[n - 1], b);
    }
  }

  /** Over every run of decisions the turn goes clockwise on a street, and a later street starts behind the dealer. */
  lemma {:induction false} TurnsGo(t: Table, ds: seq<Decision>, n: nat, b: nat)
    requires InPlay(t) && Accepted(t, ds) && n < |ds| && DealerAt(t.seats, b)
    ensures InPlay(Play(t, ds[..n])) && TurnGoes(Play(t, ds[..n]), Play(t, ds[..n + 1]), b)
  {
    DealerStays(t, ds, n, b);
    PlaySnoc(t, ds, n);
    AfterTurn(Play(t, ds[..n]), ds[n], b);
  }

  // ---- The first turn of a hand ----

  lemma {:induction false} DealtPosts(t: Table, r: Table, d: nat, sb: nat, bb: nat)
    requires Posted(t, r, d, sb, bb) && d < |t.seats|
    ensures DealerAt(DealHoleCards(r, 0).seats, d) && BigBlindIs(DealHoleCards(r, 0).seats, bb)
  {
    DealHoleCardsKeeps(r, 0);
  }

  /** The first to act of a hand: of two at the table the dealer, else the first behind the big blind. The round is
      passed over exactly if nobody has a decision to take. */
  lemma {:induction false} FirstOfHand(t: Table, shuffled: seq<string>) returns (d: nat, bb: nat)
    requires Waiting(t) && |DealtInFrom(t.seats, 0)| >= 2
    ensures var b, r := Dealt(t, shuffled), StartHand(t, shuffled).0;
      && DealerAt(b.seats, d) && BigBlindIs(b.seats, bb) && b.phaseIndex == 0
      && (Played(b) <==> !MovedOn(b, r))
      && (Played(b) ==> OpensAt(b, r, if |b.seats| == 2 then d else bb + 1))
  {
    var sb;
    var dealing := BeforeDeal(t, shuffled);
    NextSeatsFresh(t.seats);
    d, sb, bb := BlindsGo(dealing);
    DealtPosts(dealing, RotateDealerAndBlinds(dealing), d, sb, bb);
    DealtReady(t, shuffled);
    OpensHand(t, shuffled, d, bb);
  }

  lemma {:induction false} OpensHand(t: Table, shuffled: seq<string>, d: nat, bb: nat)
    requires Waiting(t) && |DealtInFrom(t.seats, 0)| >= 2
    requires var b := Dealt(t, shuffled);
      Books(b) && DealerAt(b.seats, d) && BigBlindIs(b.seats, bb) && StartHand(t, shuffled).0 == StartBettingRound(b)
    ensures var b, r := Dealt(t, shuffled), StartHand(t, shuffled).0;
      && b.phaseIndex == 0 && (Played(b) <==> !MovedOn(b, r))
      && (Played(b) ==> OpensAt(b, r, if |b.seats| == 2 then d else bb + 1))
  {
    var b := Dealt(t, shuffled);
    BooksNoDebts(b);
    DealtPhase(t, shuffled);
    RoundGoes(b, if |b.seats| == 2 then d else bb + 1);
  }

  lemma {:induction false} DealtPhase(t: Table, shuffled: seq<string>)
    ensures Dealt(t, shuffled).phaseIndex == 0
  {
    var dealing := BeforeDeal(t, shuffled);
    DealHoleCardsKeeps(RotateDealerAndBlinds(dealing), 0);
  }
}
