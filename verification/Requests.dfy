/** From the words a client sends to chips on the table. */
module Requests {
  import opened Tables
  import opened Betting
  import opened BettingInvariants
  import opened HandProgress
  import opened HandStart
  import opened DecisionEffects

  /** The five words the engine knows; a check only when there is nothing to call. */
  lemma {:induction false} LegalWords(t: Table, i: nat, word: string)
    requires i < |t.seats|
    ensures Legal(t, i, ActionOf(word)) <==>
      || word == "fold" || word == "call" || word == "raise" || word == "allin"
      || (word == "check" && t.seats[i].roundBet >= t.currentBet)
  {
  }

  /** What a word takes off the stack. */
  function WordTakes(t: Table, i: nat, word: string, amount: int): int
    requires i < |t.seats|
  {
    var s := t.seats[i];
    var missing := t.currentBet - s.roundBet;
    if word == "call" then Min(s.chips, if amount <= 0 then missing else amount)
    else if word == "raise" then Min(s.chips, if amount <= 0 then missing + t.lastRaise else amount)
    else if word == "allin" then s.chips
    else 0
  }

  lemma {:induction false} WordsTake(t: Table, i: nat, word: string, amount: int)
    requires i < |t.seats|
    ensures WordTakes(t, i, word, amount) == Taken(t, i, ActionOf(word), amount)
    ensures ActionOf(word) == Fold <==> word == "fold"
  {
  }

  /** A fold folds that one seat, and nothing else folds any. */
  ghost predicate Folds(t: Table, r: Table, i: nat, fold: bool) {
    && |r.seats| == |t.seats|
    && forall j :: 0 <= j < |t.seats| ==> (r.seats[j].folded <==> t.seats[j].folded || (j == i && fold))
  }

  lemma {:induction false} DecisionFolds(t: Table, i: nat, action: Action, amount: int)
    requires i < |t.seats|
    ensures Folds(t, ApplyDecision(t, i, action, amount), i, action == Fold)
  {
    match action
    case Raise =>
      RaiseTakes(t, i, amount);
    case AllIn =>
      AllInTakes(t, i, amount);
    case _ =>
  }

  lemma {:induction false} ActFolds(t: Table, d: Decision)
    requires InPlay(t) && Legal(t, Seated(t), d.action) && !Act(t, d).intermission
    ensures Folds(t, Act(t, d), Seated(t), d.action == Fold)
  {
    var u := ApplyDecision(t, Seated(t), d.action, d.amount);
    DecisionKeeps(t, Seated(t), d.action, d.amount);
    DecisionFolds(t, Seated(t), d.action, d.amount);
    PassTurnIs(u);
    if IsBettingRoundComplete(u) {
      StreetAdvances(u);
      assert !Ends(u, Act(t, d));
    }
  }

  lemma {:induction false} RequestActs(t: Table, name: string, word: string, amount: int, bot: Decision)
    requires InPlay(t) && HumanAction(t, name, word, amount, bot).1
    requires !HumanAction(t, name, word, amount, bot).0.intermission
    requires forall k :: 0 <= k < |t.seats| ==> !t.seats[k].isBot
    ensures var d := Decision(ActionOf(word), amount);
      Legal(t, Seated(t), d.action) && HumanAction(t, name, word, amount, bot).0 == Act(t, d)
  {
    var d := Decision(ActionOf(word), amount);
    AcceptedRequest(t, name, word, amount, bot);
    ActKeeps(t, d);
    if PlaysOn(t, Act(t, d)) {
      BotReplies(Act(t, d), bot);
      assert PersonAt(Act(t, d).seats[Seated(Act(t, d))]) == PersonAt(t.seats[Seated(Act(t, d))]);
    }
  }

  /** An accepted request, while the hand goes on: exactly these chips leave the player's stack for the pot, and the
      player has folded exactly if that was the word. */
  lemma {:induction false} RequestTakes(t: Table, name: string, word: string, amount: int, bot: Decision)
    requires InPlay(t) && HumanAction(t, name, word, amount, bot).1
    requires !HumanAction(t, name, word, amount, bot).0.intermission
    requires forall k :: 0 <= k < |t.seats| ==> !t.seats[k].isBot
    ensures var r, i := HumanAction(t, name, word, amount, bot).0, t.current % |t.seats|;
      Pays(t, r, i, WordTakes(t, i, word, amount)) && Folds(t, r, i, word == "fold")
  {
    var d := Decision(ActionOf(word), amount);
    RequestActs(t, name, word, amount, bot);
    ActTakes(t, d);
    ActFolds(t, d);
    WordsTake(t, Seated(t), word, amount);
  }

  /** The turn clock folds an absent player exactly if there is a bet to call, and never moves a chip. */
  lemma {:induction false} TimeoutSpares(t: Table)
    requires InPlay(t)
    ensures var i := t.current % |t.seats|;
      var u := ApplyDecision(t, i, ActionOf(TimeoutAction(t)), 0);
      Folds(t, u, i, t.seats[i].roundBet < t.currentBet) && Pays(t, u, i, 0)
  {
    DecisionTakes(t, Seated(t), ActionOf(TimeoutAction(t)), 0);
    DecisionFolds(t, Seated(t), ActionOf(TimeoutAction(t)), 0);
  }
}
