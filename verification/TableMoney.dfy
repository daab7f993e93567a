/** Money between wallets and tables: joining, refilling, playing, commission and leaving, at any number of tables. */
module TableMoney {
  import opened Tables
  import opened Betting
  import opened BettingInvariants
  import opened HandProgress
  import opened HandStart
  import opened AbandonedHands
  import opened Wallets
  import opened Seating
  import opened Commissions

  // The wallets, and the one table a step is about.
  datatype Desk = Desk(wallets: seq<int>, table: ActiveTable)

  // What stays the same over a run: the users, the house account and the settings.
  datatype Site = Site(users: seq<User>, house: nat, settings: Settings)

  datatype Reply = Done | AlreadySeated | HandInProgress | TableFull | BelowBuyIn
    | NotSeated | RefillDisabled | RefillTooSmall | RefillDuringHand | InvalidAmount | InsufficientBalance
    | NotActive | NotYourTurn | InvalidAction

  // ---- Steps ----

  function BuyInOf(a: ActiveTable): int {
    if a.buyIn <= 0 then STARTING_CHIPS else a.buyIn
  }

  /** `quoted` is the balance the request was made with; the debit itself looks at the wallet. */
  function Join(d: Desk, site: Site, user: nat, quoted: int): (Desk, Reply)
    requires |d.wallets| == |site.users| && user < |site.users|
  {
    var a := d.table;
    if user in a.userMap then (d, AlreadySeated)
    else if Live(a.engine) then (d, HandInProgress)
    else if |a.engine.seats| >= a.maxPlayers then (d, TableFull)
    else if quoted < BuyInOf(a) || d.wallets[user] < BuyInOf(a) then (d, BelowBuyIn)
    else (Desk(Add(d.wallets, user, -BuyInOf(a)), WithPlayer(a, user, site.users[user].username, BuyInOf(a))), Done)
  }

  /** A player with a stake in the hand being played. */
  predicate InLiveHand(t: Table, s: Seat) {
    t.gameStarted && !t.intermission && !t.gameFinished && !s.folded
  }

  function SeatOf(a: ActiveTable, user: nat): (k: nat)
    requires user in a.userMap
    ensures k <= |a.seatIndex|
  {
    SeatedAt(a.seatIndex, a.userMap[user])
  }

  function Reseated(a: ActiveTable, k: nat, s: Seat): ActiveTable
    requires k < |a.engine.seats|
  {
    a.(engine := a.engine.(seats := a.engine.seats[k := s]))
  }

  /** A player with more chips, who is then sitting in. */
  function Refilled(s: Seat, amount: int): Seat {
    s.(chips := s.chips + amount, sittingOut := false)
  }

  function Refill(d: Desk, user: nat, amount: int): (Desk, Reply)
    requires user < |d.wallets| && |d.table.seatIndex| == |d.table.engine.seats|
  {
    var a := d.table;
    if user !in a.userMap || SeatOf(a, user) == |a.engine.seats| then (d, NotSeated)
    else
      var k := SeatOf(a, user);
      if !a.refillAllowed then (d, RefillDisabled)
      else if amount < a.engine.bigBlind then (d, RefillTooSmall)
      else if InLiveHand(a.engine, a.engine.seats[k]) then (d, RefillDuringHand)
      else if amount <= 0 then (d, InvalidAmount)
      else if d.wallets[user] < amount then (d, InsufficientBalance)
      else
        (Desk(Add(d.wallets, user, -amount), Reseated(a, k, Refilled(a.engine.seats[k], amount))), Done)
  }

  /** The remaining chips go back to the wallet with the player. */
  function Leave(d: Desk, user: nat): Desk
    requires user < |d.wallets| && |d.table.seatIndex| == |d.table.engine.seats|
  {
    var a := d.table;
    if user !in a.userMap then d
    else
      var k := SeatOf(a, user);
      if k == |a.engine.seats| then d.(table := a.(userMap := a.userMap - {user}))
      else
        var chips := a.engine.seats[k].chips;
        Desk(if chips > 0 then Add(d.wallets, user, chips) else d.wallets, WithoutPlayer(a, user, k))
  }

  // A hand is dealt when the pause after the last one ends, when the countdown of a waiting table does, or when the
  // host of a private table asks for it, which may be at any time.
  datatype Cue = Pause | Countdown | Host

  predicate MayDeal(t: Table, cue: Cue) {
    && |t.seats| >= 2
    && match cue
       case Pause => t.intermission
       case Countdown => !t.gameStarted
       case Host => true
  }

  /** With fewer than two players to deal in no hand starts, and after a pause the table goes back to waiting. */
  function Deal(t: Table, cue: Cue, shuffled: seq<string>): Table {
    if !MayDeal(t, cue) then t
    else
      var (r, ok) := StartHand(t.(intermission := false), shuffled);
      if ok || !cue.Pause? then r else r.(gameStarted := false)
  }

  function SitOutBusted(seats: seq<Seat>): (r: seq<Seat>) {
    Map(seats, (s: Seat) => if s.isBot || s.chips > 0 || s.sittingOut then s else s.(sittingOut := true))
  }

  /** When a hand has ended with a winner: commission on its payouts, and players without chips sit out. */
  function AfterAction(d: Desk, site: Site): Desk
    requires |d.wallets| == |site.users| && site.house < |site.users| && KnownUsers(d.table.userIDs, site.users)
  {
    var t := d.table.engine;
    if !t.intermission || t.payouts == [] then d
    else
      var q := Commission(Raked(d.wallets, t.seats), site.users, site.house, d.table.userIDs, t.payouts, t.smallBlind,
          site.settings);
      Desk(q.wallets, d.table.(engine := t.(seats := SitOutBusted(q.seats), payouts := [])))
  }

  // No bot sits at these tables; the reply a bot would give is never used.
  const NO_BOT := Decision(Fold, 0)

  function Submit(d: Desk, site: Site, user: nat, action: string, amount: int): (Desk, Reply)
    requires |d.wallets| == |site.users| && site.house < |site.users| && KnownUsers(d.table.userIDs, site.users)
    requires user < |site.users|
  {
    var t := d.table.engine;
    if !t.gameStarted || t.gameFinished then (d, NotActive)
    else if t.seats == [] || t.seats[Seated(t)].name != site.users[user].username then (d, NotYourTurn)
    else
      var (r, ok) := HumanAction(t, site.users[user].username, action, amount, NO_BOT);
      if !ok then (d, InvalidAction) else (AfterAction(d.(table := d.table.(engine := r)), site), Done)
  }

  function SatOut(seats: seq<Seat>, k: nat): (r: seq<Seat>)
    ensures |r| == |seats|
  {
    if k >= |seats| || seats[k].isBot then seats else seats[k := seats[k].(sittingOut := true)]
  }

  /** The turn clock runs out: the player to act checks or folds, and is sat out. */
  function Expire(d: Desk, site: Site): Desk
    requires |d.wallets| == |site.users| && site.house < |site.users| && KnownUsers(d.table.userIDs, site.users)
  {
    var t := d.table.engine;
    if !Live(t) || t.seats == [] || !Actionable(t.seats[Seated(t)]) then d
    else
      var r := HumanAction(t, t.seats[Seated(t)].name, TimeoutAction(t), 0, NO_BOT).0;
      AfterAction(d.(table := d.table.(engine := r.(seats := SatOut(r.seats, Seated(t))))), site)
  }

  /** Sitting out and sitting back in. */
  function Sit(d: Desk, k: nat, out: bool): Desk {
    var seats := d.table.engine.seats;
    if k >= |seats| then d else d.(table := Reseated(d.table, k, seats[k].(sittingOut := out)))
  }

  datatype Step =
    | JoinTable(user: nat, quoted: int)
    | RefillStack(user: nat, amount: int)
    | LeaveTable(user: nat)
    | DealHand(cue: Cue, shuffled: seq<string>)
    | SubmitAction(user: nat, action: string, amount: int)
    | TurnExpires
    | SitDown(seat: nat, out: bool)
    | SaveState

  ghost predicate DeskFits(d: Desk, site: Site) {
    && |d.wallets| == |site.users| && site.house < |site.users| && InRange(site.settings)
    && KnownUsers(d.table.userIDs, site.users) && |d.table.seatIndex| == |d.table.engine.seats|
  }

  function Take(d: Desk, site: Site, e: Step): Desk
    requires DeskFits(d, site)
  {
    match e
    case JoinTable(user, quoted) => if user < |site.users| then Join(d, site, user, quoted).0 else d
    case RefillStack(user, amount) => if user < |site.users| then Refill(d, user, amount).0 else d
    case LeaveTable(user) => if user < |site.users| then Leave(d, user) else d
    case DealHand(cue, shuffled) => d.(table := d.table.(engine := Deal(d.table.engine, cue, shuffled)))
    case SubmitAction(user, action, amount) =>
      if user < |site.users| then Submit(d, site, user, action, amount).0 else d
    case TurnExpires => Expire(d, site)
    case SitDown(seat, out) => Sit(d, seat, out)
    case SaveState => d.(table := d.table.(seatIndex := Numbered(|d.table.engine.seats|)))
  }

  // ---- The invariant ----

  /** Nobody below zero, and while a hand is played a pot that holds at least the bets; players may have left it. */
  ghost predicate Sound(t: Table) {
    && StacksFit(t.seats) && t.pot >= 0 && 0 <= t.smallBlind <= t.bigBlind && !t.gameFinished
    && (t.gameStarted ==> Wagered(t))
  }

  /** A hand nobody has left, or no hand and an empty pot. */
  ghost predicate Ordered(t: Table) {
    if Live(t) then InPlay(t) else t.pot == 0
  }

  ghost predicate TableOk(a: ActiveTable, site: Site) {
    SeatsAgree(a) && PlayersOk(a, site)
  }

  ghost predicate NoBots(seats: seq<Seat>) {
    forall k :: 0 <= k < |seats| ==> !seats[k].isBot
  }

  /** Known people with their own names, no bots, and sound stakes. */
  ghost predicate PlayersOk(a: ActiveTable, site: Site) {
    && KnownUsers(a.userIDs, site.users)
    && (forall n :: n in a.userIDs ==> site.users[a.userIDs[n]].username == n)
    && NoBots(a.engine.seats) && Sound(a.engine)
  }

  ghost predicate UniqueUsers(site: Site) {
    forall u, v :: 0 <= u < v < |site.users| ==> site.users[u].username != site.users[v].username
  }

  ghost predicate DeskOk(d: Desk, site: Site) {
    && site.house < |site.users| == |d.wallets| && InRange(site.settings) && TableOk(d.table, site)
    && forall u :: 0 <= u < |d.wallets| ==> d.wallets[u] >= 0
  }

  function Value(d: Desk): int {
    SumWallets(d.wallets) + Money(d.table.engine)
  }

  // ---- Any number of tables ----

  datatype World = World(wallets: seq<int>, tables: seq<ActiveTable>)

  // A step, and the table it is taken at.
  datatype Event = Event(table: nat, step: Step)

  /** One step at one table. */
  ghost function TakeAt(w: World, site: Site, i: nat, e: Step): (r: World)
    ensures |r.tables| == |w.tables|
  {
    if i >= |w.tables| || !DeskFits(Desk(w.wallets, w.tables[i]), site) then w
    else
      var d := Take(Desk(w.wallets, w.tables[i]), site, e);
      World(d.wallets, w.tables[i := d.table])
  }

  /** One step after the other. */
  ghost function TakeAll(w: World, site: Site, moves: seq<Event>): (r: World)
    ensures |r.tables| == |w.tables|
  {
    if moves == [] then w
    else
      var n := |moves| - 1;
      TakeAt(TakeAll(w, site, moves[..n]), site, moves[n].table, moves[n].step)
  }

  /** The user leaves the first `n` tables, but not the one at `at`. */
  function Departures(user: nat, at: nat, n: nat): (moves: seq<Event>)
    ensures forall e :: e in moves ==> e.step == LeaveTable(user) && e.table != at
    ensures forall i :: 0 <= i < n && i != at ==> Event(i, LeaveTable(user)) in moves
  {
    if n == 0 then [] else Departures(user, at, n - 1) + if n - 1 == at then [] else [Event(n - 1, LeaveTable(user))]
  }

  ghost function LeaveOthers(w: World, site: Site, user: nat, at: nat): (r: World)
    ensures |r.tables| == |w.tables|
  {
    TakeAll(w, site, Departures(user, at, |w.tables|))
  }

  // Joining a table leaves all others first.
  ghost function Next(w: World, site: Site, e: Event): (r: World)
    ensures |r.tables| == |w.tables|
  {
    if e.step.JoinTable? then TakeAt(LeaveOthers(w, site, e.step.user, e.table), site, e.table, e.step)
    else TakeAt(w, site, e.table, e.step)
  }

  /** All the events, one after the other. */
  ghost function Run(w: World, site: Site, events: seq<Event>): (r: World)
    ensures |r.tables| == |w.tables|
  {
    if events == [] then w else Next(Run(w, site, events[..|events| - 1]), site, events[|events| - 1])
  }

  ghost predicate WorldOk(w: World, site: Site) {
    && site.house < |site.users| == |w.wallets| && InRange(site.settings) && UniqueUsers(site)
    && (forall u :: 0 <= u < |w.wallets| ==> w.wallets[u] >= 0)
    && forall i :: 0 <= i < |w.tables| ==> TableOk(w.tables[i], site)
  }

  function OnTables(tables: seq<ActiveTable>): int {
    if tables == [] then 0 else Money(tables[0].engine) + OnTables(tables[1..])
  }

  /** All the money there is: every wallet, the house's included, and everything on the tables. */
  function AllMoney(w: World): int {
    SumWallets(w.wallets) + OnTables(w.tables)
  }
}
