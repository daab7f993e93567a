/** One hand from the blinds to the showdown: streets, turns and actions, as the engine sequences them. */
module Betting {
  import opened Tables
  import opened Showdowns

  datatype Decision = Decision(action: Action, amount: int)

  // ---- Streets ----

  function OpenRound(t: Table): Table {
    var acted := t.(seats := Map(t.seats, (s: Seat) => s.(hasActed := false)));
    if t.phaseIndex > 0
    then acted.(seats := Map(acted.seats, (s: Seat) => s.(roundBet := 0)), currentBet := 0, lastRaise := t.bigBlind)
    else acted
  }

  function FirstToAct(t: Table): nat
    requires t.seats != []
  {
    if t.phaseIndex == 0 then
      if |t.seats| == 2 then DealerIndex(t.seats) else (BigBlindIndex(t.seats) + 1) % |t.seats|
    else (DealerIndex(t.seats) + 1) % |t.seats|
  }

  function StreetsLeft(t: Table): nat {
    if t.phaseIndex < SHOWDOWN then SHOWDOWN - t.phaseIndex else 0
  }

  function StartBettingRound(t: Table): Table
    decreases StreetsLeft(t), 1
  {
    if t.phaseIndex >= SHOWDOWN then Showdown(t)
    else
      var ready := OpenRound(t);
      if CountLive(ready.seats) <= 1 then Showdown(ready)
      else if CountActionable(ready.seats) <= 1 && IsAllInSettled(ready.seats) then AdvancePhase(ready)
      else if ready.seats == [] then ready
      else FindNextActionable(ready.(current := FirstToAct(ready))).(raisesThisRound := 0)
  }

  function AdvancePhase(t: Table): Table
    decreases StreetsLeft(t), 0
  {
    if CountLive(t.seats) <= 1 then Showdown(t)
    else
      var next := t.(phaseIndex := t.phaseIndex + 1);
      if next.phaseIndex >= SHOWDOWN then Showdown(next)
      else StartBettingRound(DealCommunity(next, BoardCards(next.phaseIndex)))
  }

  // ---- Actions ----

  function Seated(t: Table): nat
    requires t.seats != []
  {
    t.current % |t.seats|
  }

  /** Moves on after a decision: to the next street when the round is complete, else to the next seat. */
  function PassTurn(t: Table): Table {
    if IsBettingRoundComplete(t) then AdvancePhase(t) else FindNextActionable(t.(current := t.current + 1))
  }

  /** The player to act takes a decision. */
  function Act(t: Table, d: Decision): Table
    requires t.seats != []
  {
    PassTurn(ApplyDecision(t, Seated(t), d.action, d.amount))
  }

  /** Lets a bot take its turn; for a human there is nothing to do but wait. */
  function ProcessCurrent(t: Table, bot: Decision): Table {
    if t.gameFinished || t.intermission || t.seats == [] then t
    else
      var u := if Actionable(t.seats[Seated(t)]) then t else FindNextActionable(t.(current := t.current + 1));
      if u.seats[Seated(u)].isBot && Actionable(u.seats[Seated(u)]) then Act(u, bot) else u
  }

  /** The first seat of that name still in the hand, or the length of the list. */
  function PlayerNamed(seats: seq<Seat>, name: string): nat {
    IndexWhere(seats, (s: Seat) => s.name == name && !s.folded)
  }

  /** A player's request, once its name is understood; a bot that is next replies at once. */
  function Request(t: Table, name: string, action: Action, amount: int, bot: Decision): (Table, bool) {
    var ix := PlayerNamed(t.seats, name);
    if ix == |t.seats| || t.seats[ix].allIn then (t, false)
    else if Seated(t) != ix then (t, false)
    else if !Legal(t, ix, action) then (t, false)
    else (AfterDecision(ApplyDecision(t, ix, action, amount), bot), true)
  }

  function AfterDecision(acted: Table, bot: Decision): Table {
    if IsBettingRoundComplete(acted) then AdvancePhase(acted)
    else ProcessCurrent(FindNextActionable(acted.(current := acted.current + 1)), bot)
  }

  function HumanAction(t: Table, name: string, action: string, amount: int, bot: Decision): (Table, bool) {
    Request(t, name, ActionOf(action), amount, bot)
  }

  // ---- Starting a hand ----

  predicate DealtIn(s: Seat) { s.chips > 0 && !s.sittingOut }

  /** The positions of the seats that take part, from position `i` on. */
  function DealtInFrom(seats: seq<Seat>, i: nat): (r: seq<nat>)
    requires i <= |seats|
    decreases |seats| - i
    ensures forall k :: 0 <= k < |r| ==> i <= r[k] < |seats| && DealtIn(seats[r[k]])
    ensures forall a, b :: 0 <= a < b < |r| ==> r[a] < r[b]
    ensures forall x: nat :: i <= x < |seats| && DealtIn(seats[x]) ==> x in r
  {
    if i == |seats| then [] else (if DealtIn(seats[i]) then [i] else []) + DealtInFrom(seats, i + 1)
  }

  const CARD_BACKS := ["1B", "1B"]

  function ResetSeat(s: Seat): Seat {
    s.(folded := !DealtIn(s), allIn := false, hasActed := false, totalBet := 0, roundBet := 0, cards := CARD_BACKS)
  }

  /** Bots without chips lose their seat; people keep theirs. */
  function KeepSeats(seats: seq<Seat>): seq<Seat> {
    if seats == [] then []
    else (if seats[0].chips > 0 || !seats[0].isBot then [seats[0]] else []) + KeepSeats(seats[1..])
  }

  /** Exactly one dealer, small blind and big blind. */
  function SetButtons(seats: seq<Seat>, d: nat, sb: nat, bb: nat): (r: seq<Seat>)
    ensures |r| == |seats|
    ensures forall i :: 0 <= i < |r| ==>
      r[i] == seats[i].(isDealer := i == d, isSmallBlind := i == sb, isBigBlind := i == bb)
  {
    seq(|seats|, i requires 0 <= i < |seats| =>
      seats[i].(isDealer := i == d, isSmallBlind := i == sb, isBigBlind := i == bb))
  }

  function NoButtons(seats: seq<Seat>): seq<Seat> {
    SetButtons(seats, |seats|, |seats|, |seats|)
  }

  function NextOrbit(count: int, n: nat): int
    requires n > 0
  {
    if count < 0 then 0 else (count + 1) % n
  }

  // With two players the dealer posts the small blind.
  function SmallBlindAt(orbit: int, n: nat): int
    requires n >= 2
  {
    if n == 2 then orbit % n else (orbit % n + 1) % n
  }

  function BigBlindAt(orbit: int, n: nat): int
    requires n >= 2
  {
    if n == 2 then (orbit % n + 1) % n else (orbit % n + 2) % n
  }

  /** The small blind first; each posts what they have, up to the blind. */
  function PostedSeats(seats: seq<Seat>, sb: nat, bb: nat, small: int, big: int): (r: seq<Seat>)
    requires sb < |seats| && bb < |seats|
    ensures |r| == |seats|
  {
    var posted := seats[sb := PlaceBet(seats[sb], small)];
    posted[bb := PlaceBet(posted[bb], big)]
  }

  function PostedChips(seats: seq<Seat>, sb: nat, bb: nat, small: int, big: int): int
    requires sb < |seats| && bb < |seats|
  {
    var posted := seats[sb := PlaceBet(seats[sb], small)];
    BetSize(seats[sb], small) + BetSize(posted[bb], big)
  }

  function PostBlinds(t: Table, sb: nat, bb: nat): Table
    requires sb < |t.seats| && bb < |t.seats|
  {
    t.(seats := PostedSeats(t.seats, sb, bb, t.smallBlind, t.bigBlind),
       pot := PostedChips(t.seats, sb, bb, t.smallBlind, t.bigBlind),
       currentBet := t.bigBlind, lastRaise := t.bigBlind)
  }

  function RotateDealerAndBlinds(t: Table): Table {
    var dealt := DealtInFrom(t.seats, 0);
    var n := |dealt|;
    if n < 2 then t.(seats := NoButtons(t.seats))
    else
      var orbit := NextOrbit(t.dealerOrbitCount, n);
      var sb, bb := dealt[SmallBlindAt(orbit, n)], dealt[BigBlindAt(orbit, n)];
      PostBlinds(t.(seats := SetButtons(t.seats, dealt[orbit % n], sb, bb), dealerOrbitCount := orbit), sb, bb)
  }

  /** Two cards to each seat in the hand, from position `i` on. */
  function DealHoleCards(t: Table, i: nat): (r: Table)
    requires i <= |t.seats|
    decreases |t.seats| - i
  {
    if i == |t.seats| then t
    else if t.seats[i].folded || |t.deck| < 2 then DealHoleCards(t, i + 1)
    else DealHoleCards(t.(seats := t.seats[i := t.seats[i].(cards := [t.deck[0], t.deck[1]])], deck := t.deck[2..]),
                       i + 1)
  }

  /** `shuffled` is the fresh deck used when the cards left over cannot cover the hand. */
  function StartHand(t: Table, shuffled: seq<string>): (Table, bool) {
    if |DealtInFrom(t.seats, 0)| < 2 then (t, false)
    else
      var kept := KeepSeats(Map(t.seats, ResetSeat));
      var reset := t.(seats := kept, gameStarted := true, phaseIndex := 0, pot := 0, currentBet := 0,
                      lastRaise := t.bigBlind, raisesThisRound := 0, community := [], intermission := false,
                      payouts := []);
      if |kept| < 2 then (reset.(gameFinished := t.gameFinished || |kept| == 1), false)
      else
        var dealing := reset.(deck := if |t.deck| < |kept| * 2 + 5 then shuffled else t.deck);
        (StartBettingRound(DealHoleCards(RotateDealerAndBlinds(dealing), 0)), true)
  }

  function AdvanceOneStep(t: Table, shuffled: seq<string>, bot: Decision): (Table, bool) {
    if t.gameFinished || t.intermission then (t, false)
    else if !t.gameStarted then (StartHand(t, shuffled).0, true)
    else if IsBettingRoundComplete(t) then (AdvancePhase(t), true)
    else (ProcessCurrent(t, bot), true)
  }
}
