/** A poker table as a value: seats, bets and streets, with the betting operations of the engine as functions. */
module Tables {

  // The phases are preflop, flop, turn, river and, at index 4, the showdown.
  const SHOWDOWN := 4

  datatype Seat = Seat(
    name: string, isBot: bool,
    chips: int, roundBet: int, totalBet: int,
    folded: bool, allIn: bool, hasActed: bool,
    isDealer: bool, isSmallBlind: bool, isBigBlind: bool,
    sittingOut: bool, cards: seq<string>)

  /** Who sits in a seat, whatever happens in the hand. */
  datatype Person = Person(name: string, isBot: bool, sittingOut: bool)

  function PersonAt(s: Seat): Person {
    Person(s.name, s.isBot, s.sittingOut)
  }

  datatype Payout = Payout(potIndex: int, winner: string, amount: int)

  datatype Table = Table(
    seats: seq<Seat>, current: nat,
    pot: int, currentBet: int, lastRaise: int, raisesThisRound: int,
    phaseIndex: int, smallBlind: int, bigBlind: int, dealerOrbitCount: int,
    gameStarted: bool, gameFinished: bool, intermission: bool,
    deck: seq<string>, community: seq<string>, payouts: seq<Payout>)

  // An action the engine does not know leaves only the mark of having acted.
  datatype Action = Fold | Check | Call | Raise | AllIn | Other

  function ActionOf(name: string): Action {
    match name
    case "fold" => Fold
    case "check" => Check
    case "call" => Call
    case "raise" => Raise
    case "allin" => AllIn
    case _ => Other
  }

  predicate Actionable(s: Seat) { !s.folded && !s.allIn }

  function CountLive(seats: seq<Seat>): nat {
    if seats == [] then 0 else (if seats[0].folded then 0 else 1) + CountLive(seats[1..])
  }

  function CountActionable(seats: seq<Seat>): nat {
    if seats == [] then 0 else (if Actionable(seats[0]) then 1 else 0) + CountActionable(seats[1..])
  }

  // ---- Bets ----

  /** What actually leaves a stack: never more than the stack. A negative amount returns chips. */
  function BetSize(s: Seat, amount: int): int {
    if amount > s.chips then s.chips else amount
  }

  function PlaceBet(s: Seat, amount: int): Seat {
    var actual := BetSize(s, amount);
    s.(chips := s.chips - actual, roundBet := s.roundBet + actual, totalBet := s.totalBet + actual,
       allIn := s.allIn || s.chips == actual)
  }

  /** A raise gives everyone else who can still act another turn. */
  function Reopen(seats: seq<Seat>, raiser: string): (r: seq<Seat>)
    ensures |r| == |seats|
    ensures forall j :: 0 <= j < |r| ==>
      r[j] == if seats[j].name != raiser && Actionable(seats[j]) then seats[j].(hasActed := false) else seats[j]
  {
    seq(|seats|, j requires 0 <= j < |seats| =>
      if seats[j].name != raiser && Actionable(seats[j]) then seats[j].(hasActed := false) else seats[j])
  }

  /** The seats after a bet; beyond the call it is a raise. */
  function BetSeats(seats: seq<Seat>, i: nat, bet: int, needToCall: int): (r: seq<Seat>)
    requires i < |seats|
    ensures |r| == |seats|
  {
    var placed := seats[i := PlaceBet(seats[i], bet)];
    if BetSize(seats[i], bet) > needToCall then Reopen(placed, seats[i].name) else placed
  }

  function CommitBet(t: Table, i: nat, bet: int, needToCall: int): Table
    requires i < |t.seats|
  {
    var amt := BetSize(t.seats[i], bet);
    var placed := t.(seats := BetSeats(t.seats, i, bet, needToCall), pot := t.pot + amt);
    if amt > needToCall then
      placed.(currentBet := t.seats[i].roundBet + amt, lastRaise := amt - needToCall,
          raisesThisRound := t.raisesThisRound + 1)
    else placed
  }

  function ApplyDecision(t: Table, i: nat, action: Action, amount: int): Table
    requires i < |t.seats|
  {
    var needToCall := t.currentBet - t.seats[i].roundBet;
    var acted := t.(seats := t.seats[i := t.seats[i].(hasActed := true)]);
    match action
    case Fold => acted.(seats := acted.seats[i := acted.seats[i].(folded := true)])
    case Check => acted
    case Other => acted
    case Call =>
      var amt := if amount <= 0 then needToCall else amount;
      acted.(seats := acted.seats[i := PlaceBet(acted.seats[i], amt)], pot := t.pot + BetSize(t.seats[i], amt))
    case Raise => CommitBet(acted, i, if amount <= 0 then needToCall + t.lastRaise else amount, needToCall)
    case AllIn => CommitBet(acted, i, t.seats[i].chips, needToCall)
  }

  // ---- Rounds and turns ----

  function MaxLiveBet(seats: seq<Seat>): int {
    if seats == [] then 0
    else
      var rest := MaxLiveBet(seats[1..]);
      if !seats[0].folded && seats[0].roundBet > rest then seats[0].roundBet else rest
  }

  predicate IsAllInSettled(seats: seq<Seat>) {
    forall i :: 0 <= i < |seats| && Actionable(seats[i]) ==> seats[i].roundBet >= MaxLiveBet(seats)
  }

  /** A seat that still has to act, or to match the bet, this round. */
  predicate Owes(s: Seat, currentBet: int) {
    Actionable(s) && (!s.hasActed || s.roundBet < currentBet)
  }

  predicate IsBettingRoundComplete(t: Table) {
    || CountLive(t.seats) <= 1
    || ((forall i :: 0 <= i < |t.seats| ==> !Owes(t.seats[i], t.currentBet))
        && ((CountActionable(t.seats) <= 1 && IsAllInSettled(t.seats)) || CountActionable(t.seats) > 0))
  }

  /** The first actionable seat at or after `from`, looking at `left` seats, else `default`. */
  function NextActionable(seats: seq<Seat>, from: nat, left: nat, default: nat): (ix: nat)
    requires seats != []
    decreases left
  {
    if left == 0 then default
    else if Actionable(seats[from % |seats|]) then from % |seats|
    else NextActionable(seats, from + 1, left - 1, default)
  }

  function FindNextActionable(t: Table): Table {
    if t.seats == [] then t else t.(current := NextActionable(t.seats, t.current, |t.seats|, t.current))
  }

  /** The position of the first seat with the property, or the length of the list. */
  function IndexWhere(seats: seq<Seat>, p: Seat -> bool): (ix: nat)
    ensures ix <= |seats|
    ensures ix < |seats| ==> p(seats[ix])
    ensures forall i :: 0 <= i < ix ==> !p(seats[i])
  {
    if seats == [] || p(seats[0]) then 0 else 1 + IndexWhere(seats[1..], p)
  }

  function DealerIndex(seats: seq<Seat>): nat {
    var ix := IndexWhere(seats, (s: Seat) => s.isDealer);
    if ix < |seats| then ix else 0
  }

  function BigBlindIndex(seats: seq<Seat>): nat {
    var ix := IndexWhere(seats, (s: Seat) => s.isBigBlind);
    if ix < |seats| then ix else 0
  }

  /** The gate on what a client may send; a bot's own logic never checks against a bet either. */
  predicate Legal(t: Table, i: nat, action: Action)
    requires i < |t.seats|
  {
    match action
    case Fold => true
    case Call => true
    case Raise => true
    case AllIn => true
    case Check => t.seats[i].roundBet >= t.currentBet
    case Other => false
  }

  function Map(seats: seq<Seat>, f: Seat -> Seat): (r: seq<Seat>)
    ensures |r| == |seats| && forall i :: 0 <= i < |seats| ==> r[i] == f(seats[i])
  {
    seq(|seats|, i requires 0 <= i < |seats| => f(seats[i]))
  }

  function Min(a: int, b: int): int { if a < b then a else b }

  function DealCommunity(t: Table, count: nat): Table {
    var k := Min(count, |t.deck|);
    t.(community := t.community + t.deck[..k], deck := t.deck[k..])
  }

  function BoardCards(phaseIndex: int): nat {
    if phaseIndex == 1 then 3 else if phaseIndex == 2 || phaseIndex == 3 then 1 else 0
  }
}
