/** What a decision puts in, to the chip, and what it changes at all. */
module DecisionEffects {
  import opened Tables
  import opened Betting
  import opened BettingInvariants
  import opened HandProgress

  /** The seat `s` once it has acted and put in `x` chips. */
  function Put(s: Seat, x: int): Seat {
    s.(chips := s.chips - x, roundBet := s.roundBet + x, totalBet := s.totalBet + x,
       allIn := s.allIn || s.chips == x, hasActed := true)
  }

  /** Nobody but the seat at `i` is changed, and no chip but its own is moved into the pot. */
  ghost predicate OnlyPuts(t: Table, u: Table, i: nat, x: int)
    requires i < |t.seats|
  {
    u == t.(seats := t.seats[i := Put(t.seats[i], x)], pot := t.pot + x)
  }

  /** A call takes what is missing, or the amount sent, and never more than the stack. */
  lemma {:induction false} CallTakes(t: Table, i: nat, amount: int)
    requires i < |t.seats|
    ensures var s := t.seats[i];
      OnlyPuts(t, ApplyDecision(t, i, Call, amount), i,
               Min(s.chips, if amount <= 0 then t.currentBet - s.roundBet else amount))
  {
  }

  /** After a plain call the player has matched the bet, or is all in. */
  lemma {:induction false} CallMatches(t: Table, i: nat, amount: int)
    requires i < |t.seats| && amount <= 0
    ensures var s := ApplyDecision(t, i, Call, amount).seats[i];
      s.roundBet == t.currentBet || (s.chips == 0 && s.allIn && s.roundBet < t.currentBet)
  {
    CallTakes(t, i, amount);
  }

  /** A fold and a check move no chip. */
  lemma {:induction false} NothingMoves(t: Table, i: nat, amount: int)
    requires i < |t.seats|
    ensures ApplyDecision(t, i, Fold, amount)
         == t.(seats := t.seats[i := t.seats[i].(hasActed := true, folded := true)])
    ensures ApplyDecision(t, i, Check, amount) == t.(seats := t.seats[i := t.seats[i].(hasActed := true)])
  {
  }

  /** Everybody else who can still act has another turn. */
  ghost predicate Reopened(t: Table, u: Table, i: nat)
    requires i < |t.seats| == |u.seats|
  {
    forall j :: 0 <= j < |t.seats| && j != i ==>
      var s := t.seats[j];
      u.seats[j] == if s.folded || s.allIn || s.name == t.seats[i].name then s else s.(hasActed := false)
  }

  /** What a raise to come, of `x` chips from the seat at `i`, leads to: beyond the call it sets the bet to match and
      the raise that it was, and gives everybody else another turn; otherwise it is a bet and no more. */
  ghost predicate Raises(t: Table, u: Table, i: nat, x: int)
    requires i < |t.seats|
  {
    if t.seats[i].roundBet + x > t.currentBet then
      && |u.seats| == |t.seats| && u.seats[i] == Put(t.seats[i], x) && Reopened(t, u, i)
      && u == t.(seats := u.seats, pot := t.pot + x, currentBet := u.seats[i].roundBet,
                 lastRaise := u.currentBet - t.currentBet, raisesThisRound := t.raisesThisRound + 1)
    else OnlyPuts(t, u, i, x)
  }

  /** A raise takes the amount sent, or the call and the last raise once more; all in takes the stack. */
  lemma {:induction false} RaiseTakes(t: Table, i: nat, amount: int)
    requires i < |t.seats|
    ensures var s := t.seats[i];
      Raises(t, ApplyDecision(t, i, Raise, amount), i,
             Min(s.chips, if amount <= 0 then t.currentBet - s.roundBet + t.lastRaise else amount))
  {
    RaiseCommits(t, i, Raise, amount);
    CommitRaises(t, i, BetOf(t, i, Raise, amount));
  }

  lemma {:induction false} AllInTakes(t: Table, i: nat, amount: int)
    requires i < |t.seats|
    ensures Raises(t, ApplyDecision(t, i, AllIn, amount), i, t.seats[i].chips)
    ensures ApplyDecision(t, i, AllIn, amount).seats[i].chips == 0
  {
    RaiseCommits(t, i, AllIn, amount);
    CommitRaises(t, i, t.seats[i].chips);
  }

  lemma {:induction false} PutPlaces(t: Table, i: nat, bet: int)
    requires i < |t.seats|
    ensures var marked := Marked(t, i);
      marked.seats[i := PlaceBet(marked.seats[i], bet)] == t.seats[i := Put(t.seats[i], Min(t.seats[i].chips, bet))]
  {
  }

  lemma {:induction false} OthersReopened(t: Table, i: nat, s: Seat, u: Table)
    requires i < |t.seats| && s.name == t.seats[i].name && u.seats == Reopen(t.seats[i := s], s.name)
    ensures |u.seats| == |t.seats| && u.seats[i] == s && Reopened(t, u, i)
  {
    var placed := t.seats[i := s];
    forall j | 0 <= j < |t.seats| && j != i
      ensures u.seats[j] == if t.seats[j].folded || t.seats[j].allIn || t.seats[j].name == t.seats[i].name
                            then t.seats[j] else t.seats[j].(hasActed := false)
    {
      assert placed[j] == t.seats[j];
    }
  }

  lemma {:induction false} CommitRaises(t: Table, i: nat, bet: int)
    requires i < |t.seats|
    ensures Raises(t, CommitBet(Marked(t, i), i, bet, t.currentBet - t.seats[i].roundBet), i,
                   Min(t.seats[i].chips, bet))
  {
    var x := Min(t.seats[i].chips, bet);
    PutPlaces(t, i, bet);
    if t.seats[i].roundBet + x > t.currentBet {
      OthersReopened(t, i, Put(t.seats[i], x), CommitBet(Marked(t, i), i, bet, t.currentBet - t.seats[i].roundBet));
    }
  }

  // ---- Chips, whatever the decision ----

  /** What a decision takes off the stack. */
  function Taken(t: Table, i: nat, action: Action, amount: int): int
    requires i < |t.seats|
  {
    var s := t.seats[i];
    var missing := t.currentBet - s.roundBet;
    match action
    case Call => Min(s.chips, if amount <= 0 then missing else amount)
    case Raise => Min(s.chips, if amount <= 0 then missing + t.lastRaise else amount)
    case AllIn => s.chips
    case _ => 0
  }

  /** Chips move from one stack into the pot, and nowhere else. */
  ghost predicate Pays(t: Table, r: Table, i: nat, x: int)
    requires i < |t.seats|
  {
    && |r.seats| == |t.seats| && r.pot == t.pot + x
    && forall j :: 0 <= j < |t.seats| ==>
         && r.seats[j].chips == t.seats[j].chips - (if j == i then x else 0)
         && r.seats[j].totalBet == t.seats[j].totalBet + (if j == i then x else 0)
  }

  lemma {:induction false} RaisesPay(t: Table, u: Table, i: nat, x: int)
    requires i < |t.seats| && Raises(t, u, i, x)
    ensures Pays(t, u, i, x)
  {
  }

  lemma {:induction false} DecisionTakes(t: Table, i: nat, action: Action, amount: int)
    requires i < |t.seats|
    ensures Pays(t, ApplyDecision(t, i, action, amount), i, Taken(t, i, action, amount))
  {
    match action
    case Fold => NothingMoves(t, i, amount);
    case Check => NothingMoves(t, i, amount);
    case Other =>
    case Call => CallTakes(t, i, amount);
    case Raise =>
      RaiseTakes(t, i, amount);
      RaisesPay(t, ApplyDecision(t, i, Raise, amount), i, Taken(t, i, Raise, amount));
    case AllIn =>
      AllInTakes(t, i, amount);
      RaisesPay(t, ApplyDecision(t, i, AllIn, amount), i, Taken(t, i, AllIn, amount));
  }

  /** Passing the turn, or opening later streets, moves no chip while the hand goes on. */
  lemma {:induction false} ActTakes(t: Table, d: Decision)
    requires InPlay(t) && Legal(t, Seated(t), d.action) && !Act(t, d).intermission
    ensures Pays(t, Act(t, d), Seated(t), Taken(t, Seated(t), d.action, d.amount))
  {
    var u := ApplyDecision(t, Seated(t), d.action, d.amount);
    DecisionKeeps(t, Seated(t), d.action, d.amount);
    DecisionTakes(t, Seated(t), d.action, d.amount);
    PassTurnIs(u);
    if IsBettingRoundComplete(u) {
      StreetAdvances(u);
      assert !Ends(u, Act(t, d));
    }
  }
}
