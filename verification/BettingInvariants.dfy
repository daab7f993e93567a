/** What every action keeps, and why every action brings the round closer to its end. */
module BettingInvariants {
  import opened Tables
  import opened SidePots
  import opened ShowdownProofs
  import opened Betting

  // ---- The invariant ----

  /** A seat's books: bets are nested, stacks are never negative, and a live player is all in exactly at zero. */
  predicate SeatOk(s: Seat) {
    s.chips >= 0 && 0 <= s.roundBet <= s.totalBet && (!s.folded ==> (s.allIn <==> s.chips == 0))
  }

  /** All the chips of the table: on the stacks and in the pot. */
  function Money(t: Table): int {
    SumChips(t.seats) + t.pot
  }

  /** No bet to match can exceed this during a hand. */
  function BetBound(t: Table): int {
    Money(t) + t.bigBlind
  }

  ghost predicate Books(t: Table) {
    && |t.seats| >= 2 && UniqueNames(t.seats)
    && (forall i :: 0 <= i < |t.seats| ==> SeatOk(t.seats[i]))
    && t.pot == SumTotalBets(t.seats)
    && 0 <= t.bigBlind && 0 <= t.lastRaise
    && 0 <= t.currentBet <= BetBound(t)
    && 0 <= t.phaseIndex < SHOWDOWN
    && t.gameStarted && !t.intermission
  }

  /** A hand in progress, waiting for the player at the turn pointer, who can act. */
  ghost predicate InPlay(t: Table) {
    Books(t) && !IsBettingRoundComplete(t) && Actionable(t.seats[Seated(t)])
  }

  // ---- Sums over seats ----

  lemma {:induction false} SumUpdate(seats: seq<Seat>, i: nat, s: Seat)
    requires i < |seats|
    ensures SumChips(seats[i := s]) == SumChips(seats) - seats[i].chips + s.chips
    ensures SumTotalBets(seats[i := s]) == SumTotalBets(seats) - seats[i].totalBet + s.totalBet
  {
    if i == 0 {
      assert seats[i := s][1..] == seats[1..];
    } else {
      assert seats[i := s][1..] == seats[1..][i - 1 := s];
      SumUpdate(seats[1..], i - 1, s);
    }
  }

  lemma {:induction false} SumsFit(seats: seq<Seat>)
    requires forall i :: 0 <= i < |seats| ==> SeatOk(seats[i])
    ensures SumChips(seats) >= 0
    ensures forall i :: 0 <= i < |seats| ==> seats[i].totalBet <= SumTotalBets(seats)
    ensures SumTotalBets(seats) >= 0
  {
    if seats != [] {
      SumsFit(seats[1..]);
      assert forall i :: 1 <= i < |seats| ==> seats[i] == seats[1..][i - 1];
      assert SeatOk(seats[0]);
    }
  }

  // ---- What a seat still owes ----

  function Owed(s: Seat, currentBet: int): nat {
    if !Actionable(s) then 0
    else (if s.hasActed then 0 else 1) + (if s.roundBet < currentBet then currentBet - s.roundBet else 0)
  }

  function TotalOwed(seats: seq<Seat>, currentBet: int): nat {
    if seats == [] then 0 else Owed(seats[0], currentBet) + TotalOwed(seats[1..], currentBet)
  }

  lemma {:induction false} OwedUpdate(seats: seq<Seat>, i: nat, s: Seat, bet: int)
    requires i < |seats|
    ensures TotalOwed(seats[i := s], bet) == TotalOwed(seats, bet) - Owed(seats[i], bet) + Owed(s, bet)
  {
    if i == 0 {
      assert seats[i := s][1..] == seats[1..];
    } else {
      assert seats[i := s][1..] == seats[1..][i - 1 := s];
      OwedUpdate(seats[1..], i - 1, s, bet);
    }
  }

  lemma {:induction false} OwedBound(seats: seq<Seat>, bet: int, bound: int)
    requires 0 <= bet <= bound && forall i :: 0 <= i < |seats| ==> SeatOk(seats[i])
    ensures TotalOwed(seats, bet) <= |seats| * (bound + 1)
  {
    if seats != [] {
      OwedBound(seats[1..], bet, bound);
      assert SeatOk(seats[0]);
      assert |seats| * (bound + 1) == |seats[1..]| * (bound + 1) + (bound + 1);
    }
  }

  // ---- One decision ----

  lemma {:induction false} PlaceBetOk(s: Seat, amount: int)
    requires SeatOk(s) && Actionable(s) && s.roundBet + amount >= 0
    ensures var r := PlaceBet(s, amount);
      && SeatOk(r) && PersonAt(r) == PersonAt(s) && r.isDealer == s.isDealer && r.folded == s.folded
          && r.hasActed == s.hasActed
      && r.chips + r.totalBet == s.chips + s.totalBet
      && r.roundBet - s.roundBet == r.totalBet - s.totalBet == BetSize(s, amount)
      && (r.allIn <==> amount >= s.chips)
  {
  }

  /** How a decision at seat `i` moves the round along, whatever amount was sent. */
  ghost predicate Progress(t: Table, u: Table, i: nat)
    requires i < |t.seats| && |u.seats| == |t.seats|
  {
    || u.currentBet > t.currentBet
    || (u.currentBet == t.currentBet && TotalOwed(u.seats, u.currentBet) < TotalOwed(t.seats, t.currentBet))
    || (u.currentBet == t.currentBet && TotalOwed(u.seats, u.currentBet) == TotalOwed(t.seats, t.currentBet)
        && !Owes(t.seats[i], t.currentBet) && !Owes(u.seats[i], u.currentBet)
        && forall j :: 0 <= j < |t.seats| && j != i ==> u.seats[j] == t.seats[j])
  }

  /** The same people with the same cards; who has folded stays out, and neither pays nor is paid. */
  ghost predicate SamePlayers(a: seq<Seat>, b: seq<Seat>) {
    |a| == |b|
    && forall j :: 0 <= j < |a| ==>
         && PersonAt(b[j]) == PersonAt(a[j]) && b[j].cards == a[j].cards && b[j].isDealer == a[j].isDealer
         && (a[j].folded ==> b[j].folded && b[j].chips == a[j].chips && b[j].totalBet == a[j].totalBet)
  }

  ghost predicate SameRules(t: Table, u: Table) {
    && u.smallBlind == t.smallBlind && u.bigBlind == t.bigBlind
    && u.dealerOrbitCount == t.dealerOrbitCount && u.gameFinished == t.gameFinished
  }

  /** A decision keeps the table's identity: seats, streets, cards and money. */
  ghost predicate SameHand(t: Table, u: Table) {
    && SamePlayers(t.seats, u.seats) && u.phaseIndex == t.phaseIndex && SameRules(t, u)
    && u.current == t.current && u.deck == t.deck && u.community == t.community
    && Money(u) == Money(t)
  }

  /** The effect of replacing one seat and the pot together. */
  lemma {:induction false} ReplaceSeat(t: Table, i: nat, s: Seat, pot: int)
    requires Books(t) && i < |t.seats| && Actionable(t.seats[i]) && SeatOk(s)
    requires PersonAt(s) == PersonAt(t.seats[i]) && s.cards == t.seats[i].cards && s.isDealer == t.seats[i].isDealer
    requires s.chips + s.totalBet == t.seats[i].chips + t.seats[i].totalBet
    requires pot - t.pot == s.totalBet - t.seats[i].totalBet
    ensures var u := t.(seats := t.seats[i := s], pot := pot);
      && Books(u) && SameHand(t, u)
      && TotalOwed(u.seats, u.currentBet)
          == TotalOwed(t.seats, t.currentBet) - Owed(t.seats[i], t.currentBet) + Owed(s, t.currentBet)
  {
    SumUpdate(t.seats, i, s);
    OwedUpdate(t.seats, i, s, t.currentBet);
  }

  /** A fold, a check or a bet that does not raise. */
  lemma {:induction false} QuietSeat(t: Table, i: nat, s: Seat, pot: int)
    requires Books(t) && i < |t.seats| && Actionable(t.seats[i]) && SeatOk(s)
    requires PersonAt(s) == PersonAt(t.seats[i]) && s.cards == t.seats[i].cards && s.isDealer == t.seats[i].isDealer
    requires s.chips + s.totalBet == t.seats[i].chips + t.seats[i].totalBet
    requires pot - t.pot == s.totalBet - t.seats[i].totalBet
    requires s.folded || s.hasActed
    requires s.folded || s.allIn || s.roundBet >= t.currentBet || s.roundBet > t.seats[i].roundBet
    ensures var u := t.(seats := t.seats[i := s], pot := pot);
      Books(u) && SameHand(t, u) && Progress(t, u, i)
  {
    ReplaceSeat(t, i, s, pot);
  }

  lemma {:induction false} ReopenKeeps(seats: seq<Seat>, raiser: string)
    ensures SumChips(Reopen(seats, raiser)) == SumChips(seats)
    ensures SumTotalBets(Reopen(seats, raiser)) == SumTotalBets(seats)
  {
    SameStacks(Reopen(seats, raiser), seats, 0);
  }

  /** Announcing a raise to `bet` changes no stack. */
  lemma {:induction false} RaiseAnnounced(t: Table, raiser: string, bet: int, raised: int)
    requires Books(t) && 0 <= bet <= BetBound(t) && raised >= 0
    ensures var u := t.(seats := Reopen(t.seats, raiser), currentBet := bet, lastRaise := raised,
        raisesThisRound := t.raisesThisRound + 1);
      Books(u) && SameHand(t, u)
  {
    ReopenKeeps(t.seats, raiser);
  }

  lemma {:induction false} SameHandTrans(t: Table, u: Table, v: Table)
    requires SameHand(t, u) && SameHand(u, v)
    ensures SameHand(t, v)
  {
  }

  /** A bet beyond the call: the bet to match goes up, and stays within the money of the table. */
  lemma {:induction false} RaiseKeeps(t: Table, i: nat, bet: int, need: int)
    requires Books(t) && i < |t.seats| && Actionable(t.seats[i])
    requires need == t.currentBet - t.seats[i].roundBet && t.seats[i].roundBet + bet >= 0
    requires BetSize(t.seats[i], bet) > need
    ensures var u := CommitBet(t, i, bet, need);
      Books(u) && SameHand(t, u) && u.currentBet > t.currentBet
  {
    var amt, s := BetSize(t.seats[i], bet), PlaceBet(t.seats[i], bet);
    PlaceBetOk(t.seats[i], bet);
    ReplaceSeat(t, i, s, t.pot + amt);
    var placed := t.(seats := t.seats[i := s], pot := t.pot + amt);
    SumsFit(placed.seats);
    assert placed.seats[i] == s;
    RaiseAnnounced(placed, t.seats[i].name, s.roundBet, amt - need);
    SameHandTrans(t, placed, CommitBet(t, i, bet, need));
  }

  lemma {:induction false} CommitKeeps(t: Table, i: nat, bet: int, need: int)
    requires Books(t) && i < |t.seats| && Actionable(t.seats[i]) && t.seats[i].hasActed
    requires need == t.currentBet - t.seats[i].roundBet && t.seats[i].roundBet + bet >= 0
    requires bet > 0 || bet >= need
    ensures var u := CommitBet(t, i, bet, need);
      Books(u) && SameHand(t, u) && (u.currentBet > t.currentBet || Progress(t, u, i))
  {
    PlaceBetOk(t.seats[i], bet);
    if BetSize(t.seats[i], bet) > need {
      RaiseKeeps(t, i, bet, need);
    } else {
      QuietSeat(t, i, PlaceBet(t.seats[i], bet), t.pot + BetSize(t.seats[i], bet));
    }
  }

  /** Marking the seat as having acted never makes it owe more. */
  lemma {:induction false} MarkActed(t: Table, i: nat)
    requires Books(t) && i < |t.seats| && Actionable(t.seats[i])
    ensures var u := t.(seats := t.seats[i := t.seats[i].(hasActed := true)]);
      && Books(u) && SameHand(t, u)
      && TotalOwed(u.seats, u.currentBet) == TotalOwed(t.seats, t.currentBet) - (if t.seats[i].hasActed then 0 else 1)
  {
    ReplaceSeat(t, i, t.seats[i].(hasActed := true), t.pot);
  }

  /** Progress made after the mark is progress made from before it. */
  lemma {:induction false} ProgressFromMark(t: Table, i: nat, u: Table)
    requires Books(t) && i < |t.seats| && Actionable(t.seats[i]) && |u.seats| == |t.seats|
    requires var marked := t.(seats := t.seats[i := t.seats[i].(hasActed := true)]);
      u.currentBet > t.currentBet || Progress(marked, u, i)
    ensures Progress(t, u, i)
  {
    MarkActed(t, i);
    var marked := t.(seats := t.seats[i := t.seats[i].(hasActed := true)]);
    assert forall j :: 0 <= j < |t.seats| && j != i ==> marked.seats[j] == t.seats[j];
  }

  function Marked(t: Table, i: nat): Table
    requires i < |t.seats|
  {
    t.(seats := t.seats[i := t.seats[i].(hasActed := true)])
  }

  lemma {:induction false} FoldKeeps(t: Table, i: nat, amount: int)
    requires Books(t) && i < |t.seats| && Actionable(t.seats[i])
    ensures var u := ApplyDecision(t, i, Fold, amount); Books(u) && SameHand(t, u) && Progress(t, u, i)
  {
    var marked := Marked(t, i);
    MarkActed(t, i);
    QuietSeat(marked, i, marked.seats[i].(folded := true), t.pot);
    ProgressFromMark(t, i, ApplyDecision(t, i, Fold, amount));
  }

  lemma {:induction false} CheckKeeps(t: Table, i: nat, amount: int)
    requires Books(t) && i < |t.seats| && Actionable(t.seats[i]) && t.seats[i].roundBet >= t.currentBet
    ensures var u := ApplyDecision(t, i, Check, amount); Books(u) && SameHand(t, u) && Progress(t, u, i)
  {
    MarkActed(t, i);
  }

  lemma {:induction false} CallKeeps(t: Table, i: nat, amount: int)
    requires Books(t) && i < |t.seats| && Actionable(t.seats[i])
    ensures var u := ApplyDecision(t, i, Call, amount); Books(u) && SameHand(t, u) && Progress(t, u, i)
  {
    QuietFromMark(t, i, if amount <= 0 then t.currentBet - t.seats[i].roundBet else amount);
  }

  /** A seat that has just acted puts in what it owes, or any bet above nothing. */
  lemma {:induction false} QuietFromMark(t: Table, i: nat, bet: int)
    requires Books(t) && i < |t.seats| && Actionable(t.seats[i])
    requires bet > 0 || bet == t.currentBet - t.seats[i].roundBet
    ensures var marked := Marked(t, i);
      var u := marked.(seats := marked.seats[i := PlaceBet(marked.seats[i], bet)],
                         pot := t.pot + BetSize(t.seats[i], bet));
      Books(u) && SameHand(t, u) && Progress(t, u, i)
  {
    var marked := Marked(t, i);
    MarkActed(t, i);
    PlaceBetOk(marked.seats[i], bet);
    var pot := t.pot + BetSize(t.seats[i], bet);
    QuietSeat(marked, i, PlaceBet(marked.seats[i], bet), pot);
    var u := marked.(seats := marked.seats[i := PlaceBet(marked.seats[i], bet)], pot := pot);
    ProgressFromMark(t, i, u);
    SameHandTrans(t, marked, u);
  }

  /** A seat that has just acted commits a bet. */
  lemma {:induction false} CommitFromMark(t: Table, i: nat, bet: int, need: int)
    requires Books(t) && i < |t.seats| && Actionable(t.seats[i])
    requires need == t.currentBet - t.seats[i].roundBet && t.seats[i].roundBet + bet >= 0 && (bet > 0 || bet >= need)
    ensures var u := CommitBet(Marked(t, i), i, bet, need); Books(u) && SameHand(t, u) && Progress(t, u, i)
  {
    var marked := Marked(t, i);
    MarkActed(t, i);
    CommitKeeps(marked, i, bet, need);
    var u := CommitBet(marked, i, bet, need);
    ProgressFromMark(t, i, u);
    SameHandTrans(t, marked, u);
  }

  function BetOf(t: Table, i: nat, action: Action, amount: int): int
    requires i < |t.seats|
  {
    if action == AllIn then t.seats[i].chips
    else if amount <= 0 then t.currentBet - t.seats[i].roundBet + t.lastRaise else amount
  }

  lemma {:induction false} RaiseCommits(t: Table, i: nat, action: Action, amount: int)
    requires i < |t.seats| && (action == Raise || action == AllIn)
    ensures ApplyDecision(t, i, action, amount)
         == CommitBet(Marked(t, i), i, BetOf(t, i, action, amount), t.currentBet - t.seats[i].roundBet)
  {
  }

  lemma {:induction false} RaiseOrAllInKeeps(t: Table, i: nat, action: Action, amount: int, u: Table)
    requires Books(t) && i < |t.seats| && Actionable(t.seats[i]) && (action == Raise || action == AllIn)
    requires u == CommitBet(Marked(t, i), i, BetOf(t, i, action, amount), t.currentBet - t.seats[i].roundBet)
    ensures Books(u) && SameHand(t, u) && Progress(t, u, i)
  {
    assert SeatOk(t.seats[i]);
    CommitFromMark(t, i, BetOf(t, i, action, amount), t.currentBet - t.seats[i].roundBet);
  }

  /** Any legal decision, with any amount, keeps the books and moves the round along. */
  lemma {:induction false} DecisionKeeps(t: Table, i: nat, action: Action, amount: int)
    requires Books(t) && i < |t.seats| && Actionable(t.seats[i]) && Legal(t, i, action)
    ensures var u := ApplyDecision(t, i, action, amount); Books(u) && SameHand(t, u) && Progress(t, u, i)
  {
    match action
    case Fold => FoldKeeps(t, i, amount);
    case Check => CheckKeeps(t, i, amount);
    case Call => CallKeeps(t, i, amount);
    case Raise =>
      RaiseCommits(t, i, Raise, amount); RaiseOrAllInKeeps(t, i, Raise, amount, ApplyDecision(t, i, Raise, amount));
    case AllIn =>
      RaiseCommits(t, i, AllIn, amount); RaiseOrAllInKeeps(t, i, AllIn, amount, ApplyDecision(t, i, AllIn, amount));
  }
}
