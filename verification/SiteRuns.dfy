/** Any number of events at any number of tables: the money of the whole site, the seats, and the hands nobody
    leaves. */
module SiteRuns {
  import opened Options
  import opened Sequences
  import opened Tables
  import opened BettingInvariants
  import opened Wallets
  import opened Seating
  import opened TableMoney
  import opened TableMoneyProofs

  // ---- One event ----

  lemma {:induction false} TableUpdated(tables: seq<ActiveTable>, i: nat, a: ActiveTable)
    requires i < |tables|
    ensures OnTables(tables[i := a]) == OnTables(tables) - Money(tables[i].engine) + Money(a.engine)
  {
    if i == 0 {
      assert tables[i := a][1..] == tables[1..];
    } else {
      assert tables[i := a][1..] == tables[1..][i - 1 := a];
      TableUpdated(tables[1..], i - 1, a);
    }
  }

  ghost predicate EventEnds(w: World, site: Site, e: Event) {
    && e.table < |w.tables| && DeskFits(Desk(w.wallets, w.tables[e.table]), site)
    && Ends(Desk(w.wallets, w.tables[e.table]), site, e.step)
  }

  ghost predicate EventEndsIn(w: World, site: Site, e: Event, u: Table) {
    && e.table < |w.tables| && DeskFits(Desk(w.wallets, w.tables[e.table]), site)
    && EndsIn(Desk(w.wallets, w.tables[e.table]), site, e.step, u)
  }

  function EventDrop(w: World, e: Event): int {
    if e.table < |w.tables| then DroppedBy(w.tables[e.table].engine, e.step) else 0
  }

  /** What an event costs the site: the pot a new hand drops there, and the loss of the showdown it leads to. */
  ghost predicate Costing(w: World, site: Site, e: Event, l: Loss) {
    && l.pot == EventDrop(w, e) && LossOf(l.showdown) >= 0
    && (l.showdown.Some? <==> EventEnds(w, site, e)) && (l.showdown.Some? ==> EventEndsIn(w, site, e, l.showdown.value))
  }

  /** The event led from `w` to `r` and cost the site exactly `l`. */
  ghost predicate Costed(w: World, site: Site, e: Event, r: World, l: Loss) {
    AllMoney(r) == AllMoney(w) - Cost(l) && Costing(w, site, e, l)
  }

  lemma {:induction false} TakeAtKeeps(w: World, site: Site, i: nat, e: Step) returns (l: Loss)
    requires WorldOk(w, site)
    ensures WorldOk(TakeAt(w, site, i, e), site)
    ensures AllMoney(TakeAt(w, site, i, e)) == AllMoney(w) - Cost(l) && Costing(w, site, Event(i, e), l)
  {
    l := Loss(0, None);
    if i < |w.tables| {
      var d := Desk(w.wallets, w.tables[i]);
      l := StepKeeps(d, site, e);
      TableUpdated(w.tables, i, Take(d, site, e).table);
    }
  }

  ghost predicate WithoutAHand(moves: seq<Event>) {
    forall e :: e in moves ==> WithoutHand(e.step)
  }

  lemma {:induction false} TakeAllKeeps(w: World, site: Site, moves: seq<Event>)
    requires WorldOk(w, site) && WithoutAHand(moves)
    ensures WorldOk(TakeAll(w, site, moves), site) && AllMoney(TakeAll(w, site, moves)) == AllMoney(w)
    decreases |moves|
  {
    if moves != [] {
      var n := |moves| - 1;
      TakeAllKeeps(w, site, moves[..n]);
      assert moves[n] in moves;
      var l := TakeAtKeeps(TakeAll(w, site, moves[..n]), site, moves[n].table, moves[n].step);
    }
  }

  /** Leaving all other tables, hands in play or not, makes and loses no money. */
  lemma {:induction false} LeaveOthersKeeps(w: World, site: Site, user: nat, at: nat)
    requires WorldOk(w, site)
    ensures WorldOk(LeaveOthers(w, site, user, at), site) && AllMoney(LeaveOthers(w, site, user, at)) == AllMoney(w)
  {
    TakeAllKeeps(w, site, Departures(user, at, |w.tables|));
  }

  lemma {:induction false} EventKeeps(w: World, site: Site, e: Event) returns (l: Loss)
    requires WorldOk(w, site)
    ensures WorldOk(Next(w, site, e), site)
    ensures Costed(w, site, e, Next(w, site, e), l)
  {
    if e.step.JoinTable? {
      LeaveOthersKeeps(w, site, e.step.user, e.table);
      l := TakeAtKeeps(LeaveOthers(w, site, e.step.user, e.table), site, e.table, e.step);
      l := Loss(0, None);
    } else {
      l := TakeAtKeeps(w, site, e.table, e.step);
    }
  }

  // ---- Money over runs ----

  /** Event `i` of the run costs the site exactly `l`. */
  ghost predicate CostAt(w: World, site: Site, events: seq<Event>, i: nat, l: Loss)
    requires i < |events|
  {
    Costed(Run(w, site, events[..i]), site, events[i], Run(w, site, events[..i + 1]), l)
  }

  function Costs(losses: seq<Loss>): int {
    if losses == [] then 0 else Costs(losses[..|losses| - 1]) + Cost(losses[|losses| - 1])
  }

  lemma {:induction false} RunKeepsOrder(w: World, site: Site, events: seq<Event>)
    requires WorldOk(w, site)
    ensures WorldOk(Run(w, site, events), site)
    decreases |events|
  {
    if events != [] {
      var n := |events| - 1;
      RunKeepsOrder(w, site, events[..n]);
      var l := EventKeeps(Run(w, site, events[..n]), site, events[n]);
    }
  }

  /** The last of the events costs exactly `l`. */
  ghost predicate LastCosts(w: World, site: Site, events: seq<Event>, l: Loss) {
    && events != []
    && var n := |events| - 1; Costed(Run(w, site, events[..n]), site, events[n], Run(w, site, events), l)
  }

  lemma {:induction false} LastCost(w: World, site: Site, events: seq<Event>) returns (l: Loss)
    requires WorldOk(w, site) && events != []
    ensures LastCosts(w, site, events, l)
  {
    RunKeepsOrder(w, site, events[..|events| - 1]);
    l := EventKeeps(Run(w, site, events[..|events| - 1]), site, events[|events| - 1]);
  }

  ghost predicate SomeCost(costs: (seq<Event>, Loss) -> bool, events: seq<Event>) {
    exists l :: costs(events, l)
  }

  lemma {:induction false} Collected(events: seq<Event>, costs: (seq<Event>, Loss) -> bool) returns (losses: seq<Loss>)
    requires forall n :: 1 <= n <= |events| ==> SomeCost(costs, events[..n])
    ensures |losses| == |events| && forall i :: 0 <= i < |events| ==> costs(events[..i + 1], losses[i])
  {
    losses := [];
    while |losses| < |events|
      invariant |losses| <= |events| && forall j :: 0 <= j < |losses| ==> costs(events[..j + 1], losses[j])
    {
      var es := events[..|losses| + 1];
      assert SomeCost(costs, es);
      var l :| costs(es, l);
      losses := losses + [l];
    }
  }

  lemma {:induction false} RunCosts(w: World, site: Site, events: seq<Event>, costs: (seq<Event>, Loss) -> bool)
    requires WorldOk(w, site) && events != []
    requires forall es, l {:trigger LastCosts(w, site, es, l)} :: LastCosts(w, site, es, l) ==> costs(es, l)
    ensures SomeCost(costs, events)
  {
    var l := LastCost(w, site, events);
    assert costs(events, l);
  }

  lemma {:induction false} CostsAlong(w: World, site: Site, events: seq<Event>, costs: (seq<Event>, Loss) -> bool)
    returns (losses: seq<Loss>)
    requires WorldOk(w, site)
    requires forall es, l {:trigger LastCosts(w, site, es, l)} :: LastCosts(w, site, es, l) ==> costs(es, l)
    ensures |losses| == |events| && forall i :: 0 <= i < |events| ==> costs(events[..i + 1], losses[i])
  {
    forall n | 1 <= n <= |events| ensures SomeCost(costs, events[..n]) {
      RunCosts(w, site, events[..n], costs);
    }
    losses := Collected(events, costs);
  }

  lemma {:induction false} CostAtPrefix(w: World, site: Site, events: seq<Event>, i: nat, l: Loss)
    requires i < |events| && LastCosts(w, site, events[..i + 1], l)
    ensures CostAt(w, site, events, i, l)
  {
    assert events[..i + 1][..i] == events[..i];
  }

  lemma {:induction false} CostMoney(w: World, site: Site, events: seq<Event>, i: nat, l: Loss)
    requires i < |events| && CostAt(w, site, events, i, l)
    ensures AllMoney(Run(w, site, events[..i + 1])) == AllMoney(Run(w, site, events[..i])) - Cost(l)
  {
  }

  /** Losses one after the other add up. */
  lemma {:induction false} AddedUp(money: nat -> int, losses: seq<Loss>)
    requires forall i: nat :: i < |losses| ==> money(i + 1) == money(i) - Cost(losses[i])
    ensures money(|losses|) == money(0) - Costs(losses)
    decreases |losses|
  {
    if losses != [] {
      AddedUp(money, losses[..|losses| - 1]);
    }
  }

  lemma {:induction false} MoneyAddsUp(w: World, site: Site, events: seq<Event>, losses: seq<Loss>, money: nat -> int)
    requires |losses| == |events| && forall i :: 0 <= i < |events| ==> CostAt(w, site, events, i, losses[i])
    requires forall i: nat :: i <= |events| ==> money(i) == AllMoney(Run(w, site, events[..i]))
    ensures money(|events|) == money(0) - Costs(losses)
  {
    forall i: nat | i < |losses| ensures money(i + 1) == money(i) - Cost(losses[i]) {
      CostMoney(w, site, events, i, losses[i]);
    }
    AddedUp(money, losses);
  }

  lemma {:induction false} CostsOf(w: World, site: Site, events: seq<Event>) returns (losses: seq<Loss>)
    requires WorldOk(w, site)
    ensures |losses| == |events| && forall i :: 0 <= i < |events| ==> CostAt(w, site, events, i, losses[i])
  {
    var costs := (es: seq<Event>, l: Loss) => LastCosts(w, site, es, l);
    losses := CostsAlong(w, site, events, costs);
    forall i | 0 <= i < |events| ensures CostAt(w, site, events, i, losses[i]) {
      assert costs(events[..i + 1], losses[i]);
      CostAtPrefix(w, site, events, i, losses[i]);
    }
  }

  /** Over every run, at any number of tables, whoever leaves whenever: no wallet or stack ever goes below nothing;
      event by event, money is lost exactly where a new hand drops a pot or a hand ends, and exactly that pot and what
      the showdown leaves undistributed. */
  lemma {:induction false} MoneyConserved(w: World, site: Site, events: seq<Event>) returns (losses: seq<Loss>)
    requires WorldOk(w, site)
    ensures WorldOk(Run(w, site, events), site)
    ensures |losses| == |events| && forall i :: 0 <= i < |events| ==> CostAt(w, site, events, i, losses[i])
    ensures AllMoney(Run(w, site, events)) == AllMoney(w) - Costs(losses)
  {
    RunKeepsOrder(w, site, events);
    losses := CostsOf(w, site, events);
    var money := (i: nat) => if i <= |events| then AllMoney(Run(w, site, events[..i])) else 0;
    MoneyAddsUp(w, site, events, losses, money);
    assert events[..|events|] == events;
  }

  lemma {:induction false} FreeOfCost(w: World, site: Site, e: Event)
    requires WorldOk(w, site) && WithoutHand(e.step)
    ensures AllMoney(Next(w, site, e)) == AllMoney(w)
  {
    var l := EventKeeps(w, site, e);
  }

  /** Joining, refilling, sitting in or out, saving and leaving, at any time, move money and neither make nor lose
      any. */
  lemma {:induction false} WithoutHands(w: World, site: Site, events: seq<Event>)
    requires WorldOk(w, site) && forall i :: 0 <= i < |events| ==> WithoutHand(events[i].step)
    ensures AllMoney(Run(w, site, events)) == AllMoney(w)
    decreases |events|
  {
    if events != [] {
      var n := |events| - 1;
      WithoutHands(w, site, events[..n]);
      RunKeepsOrder(w, site, events[..n]);
      FreeOfCost(Run(w, site, events[..n]), site, events[n]);
    }
  }

  // ---- The order of leaving ----

  /** What is left at a table, and what leaving it pays. */
  function LeftBehind(a: ActiveTable, user: nat): (ActiveTable, int)
    requires |a.seatIndex| == |a.engine.seats|
  {
    if user !in a.userMap || SeatOf(a, user) == |a.engine.seats| then (a, 0)
    else (WithoutPlayer(a, user, SeatOf(a, user)), a.engine.seats[SeatOf(a, user)].chips)
  }

  lemma {:induction false} LeaveAt(w: World, site: Site, user: nat, i: nat)
    requires WorldOk(w, site) && user < |site.users| && i < |w.tables|
    ensures TakeAt(w, site, i, LeaveTable(user))
         == World(Add(w.wallets, user, LeftBehind(w.tables[i], user).1), w.tables[i := LeftBehind(w.tables[i], user).0])
  {
    var d := Desk(w.wallets, w.tables[i]);
    assert TableOk(d.table, site) && DeskFits(d, site);
    if user in d.table.userMap {
      LeftTable(d.table, site, user);
      LeaveIs(d, user);
    } else {
      assert Add(w.wallets, user, 0) == w.wallets;
    }
  }

  lemma {:induction false} LeaveAtNowhere(w: World, site: Site, user: nat, i: nat)
    requires user >= |site.users| || i >= |w.tables|
    ensures TakeAt(w, site, i, LeaveTable(user)) == w
  {
    if i < |w.tables| {
      assert w.tables[i := w.tables[i]] == w.tables;
    }
  }

  /** Two tables are left in either order. */
  lemma {:induction false} LeavesSwap(w: World, site: Site, user: nat, i: nat, j: nat)
    requires WorldOk(w, site)
    ensures var e := LeaveTable(user);
      TakeAt(TakeAt(w, site, i, e), site, j, e) == TakeAt(TakeAt(w, site, j, e), site, i, e)
  {
    var e := LeaveTable(user);
    if user >= |site.users| || i >= |w.tables| || j >= |w.tables| {
      LeavesSwapNowhere(w, site, user, i, j);
    } else if i != j {
      BothLeft(w, site, user, i, j);
      BothLeft(w, site, user, j, i);
      var a, b := LeftBehind(w.tables[i], user), LeftBehind(w.tables[j], user);
      SwappedWallets(w.wallets, user, a.1, b.1);
      SwappedTables(w.tables, i, j, a.0, b.0);
    }
  }

  lemma {:induction false} BothLeft(w: World, site: Site, user: nat, i: nat, j: nat)
    requires WorldOk(w, site) && user < |site.users| && i < |w.tables| && j < |w.tables| && i != j
    ensures var e, a, b := LeaveTable(user), LeftBehind(w.tables[i], user), LeftBehind(w.tables[j], user);
      TakeAt(TakeAt(w, site, i, e), site, j, e)
          == World(Add(Add(w.wallets, user, a.1), user, b.1), w.tables[i := a.0][j := b.0])
  {
    var l := TakeAtKeeps(w, site, i, LeaveTable(user));
    LeaveAt(w, site, user, i);
    LeaveAt(TakeAt(w, site, i, LeaveTable(user)), site, user, j);
  }

  lemma {:induction false} SwappedWallets(wallets: seq<int>, user: nat, m: int, n: int)
    requires user < |wallets|
    ensures Add(Add(wallets, user, m), user, n) == Add(Add(wallets, user, n), user, m)
  {
  }

  lemma {:induction false} SwappedTables(tables: seq<ActiveTable>, i: nat, j: nat, a: ActiveTable, b: ActiveTable)
    requires i < |tables| && j < |tables| && i != j
    ensures tables[i := a][j := b] == tables[j := b][i := a]
  {
  }

  lemma {:induction false} LeavesSwapNowhere(w: World, site: Site, user: nat, i: nat, j: nat)
    requires user >= |site.users| || i >= |w.tables| || j >= |w.tables|
    ensures var e := LeaveTable(user);
      TakeAt(TakeAt(w, site, i, e), site, j, e) == TakeAt(TakeAt(w, site, j, e), site, i, e)
  {
    var e := LeaveTable(user);
    if user >= |site.users| || i >= |w.tables| {
      LeaveAtNowhere(w, site, user, i);
      LeaveAtNowhere(TakeAt(w, site, j, e), site, user, i);
    } else {
      LeaveAtNowhere(w, site, user, j);
      LeaveAtNowhere(TakeAt(w, site, i, e), site, user, j);
    }
  }

  lemma {:induction false} TakeAllSnoc(w: World, site: Site, moves: seq<Event>, x: Event)
    ensures TakeAll(w, site, moves + [x]) == TakeAt(TakeAll(w, site, moves), site, x.table, x.step)
  {
    assert (moves + [x])[..|moves|] == moves;
  }

  lemma {:induction false} Moved(before: seq<Event>, x: Event, rest: seq<Event>, y: Event)
    ensures before + [x] + (rest + [y]) == (before + [x] + rest) + [y]
    ensures before + (rest + [y]) + [x] == before + rest + [y] + [x]
  {
  }

  /** A table left early may as well be left last. */
  lemma {:induction false} LeftLast(w: World, site: Site, user: nat, before: seq<Event>, x: Event, after: seq<Event>)
    requires WorldOk(w, site) && AllLeave(before, user) && AllLeave(after, user) && x.step == LeaveTable(user)
    ensures TakeAll(w, site, before + [x] + after) == TakeAll(w, site, before + after + [x])
    decreases |after|, 0
  {
    if after == [] {
      assert before + [x] + after == before + after + [x];
    } else {
      LeftLater(w, site, user, before, x, after[..|after| - 1], after[|after| - 1]);
      assert after == after[..|after| - 1] + [after[|after| - 1]];
    }
  }

  lemma {:induction false} LeftLater(w: World, site: Site, user: nat, before: seq<Event>, x: Event, rest: seq<Event>,
      y: Event)
    requires WorldOk(w, site) && AllLeave(before, user) && AllLeave(rest, user) && x.step == y.step == LeaveTable(user)
    ensures TakeAll(w, site, before + [x] + (rest + [y])) == TakeAll(w, site, before + (rest + [y]) + [x])
    decreases |rest|, 1
  {
    Moved(before, x, rest, y);
    LeftLast(w, site, user, before, x, rest);
    TakeAllSnoc(w, site, before + [x] + rest, y);
    TakeAllSnoc(w, site, before + rest + [x], y);
    SwapLast(w, site, user, before + rest, x, y);
  }

  lemma {:induction false} SwapLast(w: World, site: Site, user: nat, moves: seq<Event>, x: Event, y: Event)
    requires WorldOk(w, site) && AllLeave(moves, user) && x.step == y.step == LeaveTable(user)
    ensures TakeAll(w, site, moves + [x] + [y]) == TakeAll(w, site, moves + [y] + [x])
  {
    TakeAllKeeps(w, site, moves);
    TakeAllSnoc(w, site, moves, x);
    TakeAllSnoc(w, site, moves + [x], y);
    TakeAllSnoc(w, site, moves, y);
    TakeAllSnoc(w, site, moves + [y], x);
    LeavesSwap(TakeAll(w, site, moves), site, user, x.table, y.table);
  }

  ghost predicate AllLeave(moves: seq<Event>, user: nat) {
    forall e :: e in moves ==> e.step == LeaveTable(user)
  }

  /** Leaving tables comes to the same in any order. */
  lemma {:induction false} AnyOrder(w: World, site: Site, user: nat, p: seq<Event>, q: seq<Event>)
    requires WorldOk(w, site) && AllLeave(p, user) && multiset(p) == multiset(q)
    ensures TakeAll(w, site, p) == TakeAll(w, site, q)
    decreases |q|, 0
  {
    if q == [] {
      assert |multiset(p)| == |p|;
    } else {
      assert q == q[..|q| - 1] + [q[|q| - 1]];
      SameButOne(w, site, user, p, q[..|q| - 1], q[|q| - 1]);
    }
  }

  lemma {:induction false} SameButOne(w: World, site: Site, user: nat, p: seq<Event>, rest: seq<Event>, x: Event)
    requires WorldOk(w, site) && AllLeave(p, user) && multiset(p) == multiset(rest + [x])
    ensures TakeAll(w, site, p) == TakeAll(w, site, rest + [x])
    decreases |rest|, 1
  {
    var before, after := OneOut(p, rest, x);
    assert x in p && forall e :: e in before || e in after ==> e in p;
    LeftLast(w, site, user, before, x, after);
    AnyOrder(w, site, user, before + after, rest);
    TakeAllSnoc(w, site, before + after, x);
    TakeAllSnoc(w, site, rest, x);
  }

  // ---- Hands nobody leaves ----

  /** The event takes somebody out of a hand being played at table `i`, by leaving it or by joining another. */
  predicate LeavesHandAt(w: World, e: Event, i: nat)
    requires i < |w.tables|
  {
    || (e.table == i && LeavesHand(w.tables[i], e.step))
    || (e.table != i && e.step.JoinTable? && LeavesHand(w.tables[i], LeaveTable(e.step.user)))
  }

  /** A new hand starts at table `i`. */
  predicate StartsAt(w: World, e: Event, i: nat)
    requires i < |w.tables|
  {
    e.table == i && e.step.DealHand? && Dealing(w.tables[i].engine, e.step.cue)
  }

  /** Leaving keeps in order what nobody leaves in the middle. */
  ghost predicate Undisturbed(w: World, user: nat, at: nat, i: nat)
    requires i < |w.tables|
  {
    Ordered(w.tables[i].engine) && (i != at ==> !LeavesHand(w.tables[i], LeaveTable(user)))
  }

  lemma {:induction false} DeparturesOrdered(w: World, site: Site, user: nat, at: nat, moves: seq<Event>, i: nat)
    requires WorldOk(w, site) && Leaves(moves, user, at) && i < |w.tables| && Undisturbed(w, user, at, i)
    ensures Undisturbed(TakeAll(w, site, moves), user, at, i)
    decreases |moves|
  {
    if moves != [] {
      var front := moves[..|moves| - 1];
      DeparturesOrdered(w, site, user, at, front, i);
      TakeAllKeeps(w, site, front);
      DepartureOrdered(TakeAll(w, site, front), site, user, at, moves[|moves| - 1], i);
    }
  }

  lemma {:induction false} DepartureOrdered(w: World, site: Site, user: nat, at: nat, e: Event, i: nat)
    requires WorldOk(w, site) && e.step == LeaveTable(user) && e.table != at && i < |w.tables|
        && Undisturbed(w, user, at, i)
    ensures Undisturbed(TakeAt(w, site, e.table, e.step), user, at, i)
  {
    if e.table == i {
      var d := Desk(w.wallets, w.tables[i]);
      assert TableOk(d.table, site);
      StepOrdered(d, site, e.step);
      StaysGone(d, site, user);
    }
  }

  lemma {:induction false} StaysGone(d: Desk, site: Site, user: nat)
    requires DeskOk(d, site) && DeskFits(d, site)
    ensures user < |site.users| ==> user !in Take(d, site, LeaveTable(user)).table.userMap
    ensures user >= |site.users| ==> Take(d, site, LeaveTable(user)) == d
  {
    if user < |site.users| && user in d.table.userMap {
      LeaverGone(d.table, user, user);
    }
  }

  ghost predicate OrderedAt(w: World, i: nat) {
    i < |w.tables| && Ordered(w.tables[i].engine)
  }

  /** An event keeps a table in order unless it takes somebody out of a hand there; a hand that starts restores
      order. */
  lemma {:induction false} EventOrdered(w: World, site: Site, e: Event, i: nat)
    requires WorldOk(w, site) && i < |w.tables|
    requires StartsAt(w, e, i) || (OrderedAt(w, i) && !LeavesHandAt(w, e, i))
    ensures OrderedAt(Next(w, site, e), i)
  {
    if e.step.JoinTable? {
      var moves := Departures(e.step.user, e.table, |w.tables|);
      DeparturesOrdered(w, site, e.step.user, e.table, moves, i);
      LeaveOthersKeeps(w, site, e.step.user, e.table);
      StepOrderedAt(LeaveOthers(w, site, e.step.user, e.table), site, e, i);
    } else {
      StepOrderedAt(w, site, e, i);
    }
  }

  lemma {:induction false} StepOrderedAt(w: World, site: Site, e: Event, i: nat)
    requires WorldOk(w, site) && i < |w.tables|
    requires StartsAt(w, e, i) || (Ordered(w.tables[i].engine) && (e.table == i ==> !LeavesHand(w.tables[i], e.step)))
    ensures Ordered(TakeAt(w, site, e.table, e.step).tables[i].engine)
  {
    if e.table == i {
      var d := Desk(w.wallets, w.tables[i]);
      assert TableOk(d.table, site);
      StepOrdered(d, site, e.step);
    }
  }

  /** From event `from` on nobody leaves a hand at table `i`. */
  ghost predicate NobodyLeaves(w: World, site: Site, events: seq<Event>, from: nat, i: nat)
    requires i < |w.tables|
  {
    forall n :: from <= n < |events| ==> !LeavesHandAt(Run(w, site, events[..n]), events[n], i)
  }

  lemma {:induction false} NobodyLeavesBefore(w: World, site: Site, events: seq<Event>, from: nat, i: nat)
    requires i < |w.tables| && from < |events| && NobodyLeaves(w, site, events, from, i)
    ensures NobodyLeaves(w, site, events[..|events| - 1], from, i)
    ensures !LeavesHandAt(Run(w, site, events[..|events| - 1]), events[|events| - 1], i)
  {
    var front := events[..|events| - 1];
    forall m | from <= m < |front| ensures !LeavesHandAt(Run(w, site, front[..m]), front[m], i) {
      assert front[..m] == events[..m] && front[m] == events[m];
    }
  }

  lemma {:induction false} LastOrdered(w: World, site: Site, events: seq<Event>, i: nat)
    requires WorldOk(w, site) && i < |w.tables| && events != []
    requires OrderedAt(Run(w, site, events[..|events| - 1]), i)
    requires !LeavesHandAt(Run(w, site, events[..|events| - 1]), events[|events| - 1], i)
    ensures OrderedAt(Run(w, site, events), i)
  {
    RunKeepsOrder(w, site, events[..|events| - 1]);
    EventOrdered(Run(w, site, events[..|events| - 1]), site, events[|events| - 1], i);
  }

  /** A table in order after `from` events stays so to the end of the run if nobody leaves a hand there meanwhile: every
      hand is in play with all its books, waiting for somebody who can act, and between hands the pot is empty. */
  lemma {:induction false} StaysInOrder(w: World, site: Site, events: seq<Event>, from: nat, i: nat)
    requires WorldOk(w, site) && i < |w.tables| && from <= |events|
    requires OrderedAt(Run(w, site, events[..from]), i) && NobodyLeaves(w, site, events, from, i)
    ensures OrderedAt(Run(w, site, events), i)
    decreases |events|
  {
    if from == |events| {
      assert events[..from] == events;
    } else {
      var front := events[..|events| - 1];
      assert front[..from] == events[..from];
      NobodyLeavesBefore(w, site, events, from, i);
      StaysInOrder(w, site, front, from, i);
      LastOrdered(w, site, events, i);
    }
  }

  // ---- Seats over runs ----

  /** After any sequence of joins, leaves, saves, refills and hands, started and left at any time, the user map of every
      table is the inverse of its seat list, every player's own seat number is their position, and the names listed are
      exactly those seated. */
  lemma {:induction false} SeatsAlwaysAgree(w: World, site: Site, events: seq<Event>, i: nat)
    requires WorldOk(w, site) && i < |w.tables|
    ensures SeatsAgree(Run(w, site, events).tables[i])
  {
    RunKeepsOrder(w, site, events);
  }

  /** Nobody sits at two tables. */
  ghost predicate OneTableEach(w: World) {
    forall i, j, u :: 0 <= i < j < |w.tables| && u in w.tables[i].userMap ==> u !in w.tables[j].userMap
  }

  lemma {:induction false} SameUsers(d: Desk, site: Site, user: nat, action: string, amount: int)
    requires DeskFits(d, site) && user < |site.users|
    ensures Submit(d, site, user, action, amount).0.table.userMap == d.table.userMap
  {
  }

  lemma {:induction false} ExpireSameUsers(d: Desk, site: Site)
    requires DeskFits(d, site)
    ensures Expire(d, site).table.userMap == d.table.userMap
  {
  }

  /** Only joining brings a user to a table. */
  lemma {:induction false} NobodyNew(d: Desk, site: Site, e: Step, u: nat)
    requires DeskFits(d, site) && DeskOk(d, site) && u in Take(d, site, e).table.userMap
    ensures u in d.table.userMap || (e.JoinTable? && u == e.user)
  {
    match e
    case LeaveTable(user) =>
      if user < |site.users| && user in d.table.userMap {
        LeaveUsers(d, user, u);
      }
    case SubmitAction(user, action, amount) => if user < |site.users| { SameUsers(d, site, user, action, amount); }
    case TurnExpires => ExpireSameUsers(d, site);
    case _ =>
  }

  lemma {:induction false} LeaveUsers(d: Desk, user: nat, u: nat)
    requires user < |d.wallets| && SeatsAgree(d.table) && user in d.table.userMap
    ensures u in Leave(d, user).table.userMap ==> u in d.table.userMap && u != user
  {
    LeaverGone(d.table, user, u);
  }

  /** Who leaves is no longer in the map, and everyone else who is was there before. */
  lemma {:induction false} LeaverGone(a: ActiveTable, user: nat, u: nat)
    requires SeatsAgree(a) && user in a.userMap
    ensures SeatOf(a, user) < |a.engine.seats|
    ensures u in WithoutPlayer(a, user, SeatOf(a, user)).userMap ==> u in a.userMap && u != user
  {
    OwnSeat(a, user);
    var k := SeatOf(a, user);
    LeaveAgrees(a, user, k);
    var b := WithoutPlayer(a, user, k);
    if u in b.userMap {
      OtherSeat(a, k, b.userMap[u]);
    }
  }

  ghost predicate Leaves(moves: seq<Event>, user: nat, at: nat) {
    forall e :: e in moves ==> e.step == LeaveTable(user) && e.table != at
  }

  /** Nobody has come to a table, and the user is at none that was left. */
  ghost predicate Left(w: World, r: World, user: nat, moves: seq<Event>) {
    && |r.tables| == |w.tables|
    && (forall e :: e in moves && e.table < |r.tables| ==> user !in r.tables[e.table].userMap)
    && (forall i, u :: 0 <= i < |r.tables| && u in r.tables[i].userMap ==> u in w.tables[i].userMap)
  }

  lemma {:induction false} AllLeft(w: World, site: Site, user: nat, at: nat, moves: seq<Event>)
    requires WorldOk(w, site) && user < |site.users| && Leaves(moves, user, at)
    ensures Left(w, TakeAll(w, site, moves), user, moves)
    decreases |moves|
  {
    if moves != [] {
      var front := moves[..|moves| - 1];
      AllLeft(w, site, user, at, front);
      TakeAllKeeps(w, site, front);
      LastLeft(w, TakeAll(w, site, front), site, user, at, moves);
    }
  }

  lemma {:induction false} LastLeft(w: World, before: World, site: Site, user: nat, at: nat, moves: seq<Event>)
    requires moves != [] && Leaves(moves, user, at) && user < |site.users|
    requires WorldOk(before, site) && Left(w, before, user, moves[..|moves| - 1])
    ensures var last := moves[|moves| - 1]; Left(w, TakeAt(before, site, last.table, last.step), user, moves)
  {
    var last := moves[|moves| - 1];
    if last.table < |before.tables| {
      OneLeft(before, site, user, last.table);
    }
    forall e | e in moves ensures e == last || e in moves[..|moves| - 1] {
    }
  }

  lemma {:induction false} OneLeft(w: World, site: Site, user: nat, j: nat)
    requires WorldOk(w, site) && j < |w.tables| && user < |site.users|
    ensures var r := TakeAt(w, site, j, LeaveTable(user));
      && user !in r.tables[j].userMap && r.tables == w.tables[j := r.tables[j]]
      && (forall u :: u in r.tables[j].userMap ==> u in w.tables[j].userMap)
  {
    var a := w.tables[j];
    assert TableOk(a, site) && DeskFits(Desk(w.wallets, a), site);
    if user in a.userMap {
      OwnSeat(a, user);
      forall u | u in TakeAt(w, site, j, LeaveTable(user)).tables[j].userMap ensures u in a.userMap && u != user {
        LeaverGone(a, user, u);
      }
    }
  }

  ghost predicate NowhereElse(w: World, user: nat, at: nat) {
    forall j :: 0 <= j < |w.tables| && j != at ==> user !in w.tables[j].userMap
  }

  lemma {:induction false} JoinerAlone(w: World, site: Site, user: nat, at: nat)
    requires WorldOk(w, site) && OneTableEach(w)
    ensures OneTableEach(LeaveOthers(w, site, user, at))
    ensures user < |site.users| ==> NowhereElse(LeaveOthers(w, site, user, at), user, at)
  {
    var moves := Departures(user, at, |w.tables|);
    if user < |site.users| {
      AllLeft(w, site, user, at, moves);
      LeftAll(w, TakeAll(w, site, moves), user, at, moves);
    } else {
      BystandersOnly(w, site, user, at, moves);
    }
  }

  lemma {:induction false} LeftAll(w: World, r: World, user: nat, at: nat, moves: seq<Event>)
    requires OneTableEach(w) && Left(w, r, user, moves) && moves == Departures(user, at, |w.tables|)
    ensures OneTableEach(r) && NowhereElse(r, user, at)
  {
    forall j | 0 <= j < |r.tables| && j != at ensures user !in r.tables[j].userMap {
      assert Event(j, LeaveTable(user)) in moves;
    }
  }

  /** A user who joins a table has left all others, so nobody is ever seated twice. */
  lemma {:induction false} OneTableKept(w: World, site: Site, e: Event)
    requires WorldOk(w, site) && OneTableEach(w)
    ensures OneTableEach(Next(w, site, e))
  {
    if !e.step.JoinTable? {
      StepOneTable(w, site, e.table, e.step);
    } else {
      JoinerAlone(w, site, e.step.user, e.table);
      LeaveOthersKeeps(w, site, e.step.user, e.table);
      StepOneTable(LeaveOthers(w, site, e.step.user, e.table), site, e.table, e.step);
    }
  }

  /** A number that is no user's takes nobody anywhere. */
  lemma {:induction false} BystandersOnly(w: World, site: Site, user: nat, at: nat, moves: seq<Event>)
    requires Leaves(moves, user, at) && user >= |site.users|
    ensures TakeAll(w, site, moves) == w
    decreases |moves|
  {
    if moves != [] {
      var n := |moves| - 1;
      BystandersOnly(w, site, user, at, moves[..n]);
      assert moves[n] in moves;
      if moves[n].table < |w.tables| {
        assert w.tables[moves[n].table := w.tables[moves[n].table]] == w.tables;
      }
    }
  }

  lemma {:induction false} StepOneTable(w: World, site: Site, i: nat, e: Step)
    requires WorldOk(w, site) && OneTableEach(w)
    requires e.JoinTable? && e.user < |site.users| ==> NowhereElse(w, e.user, i)
    ensures OneTableEach(TakeAt(w, site, i, e))
  {
    if i < |w.tables| {
      var d := Desk(w.wallets, w.tables[i]);
      assert TableOk(d.table, site);
      var after := TakeAt(w, site, i, e);
      forall u | u in after.tables[i].userMap
        ensures u in d.table.userMap || (e.JoinTable? && e.user < |site.users| && u == e.user)
      {
        NobodyNew(d, site, e, u);
      }
    }
  }

  /** Over every run, nobody is ever seated at two tables. */
  lemma {:induction false} NeverTwoTables(w: World, site: Site, events: seq<Event>)
    requires WorldOk(w, site) && OneTableEach(w)
    ensures WorldOk(Run(w, site, events), site) && OneTableEach(Run(w, site, events))
    decreases |events|
  {
    if events != [] {
      var n := |events| - 1;
      NeverTwoTables(w, site, events[..n]);
      OneTableKept(Run(w, site, events[..n]), site, events[n]);
      var l := EventKeeps(Run(w, site, events[..n]), site, events[n]);
    }
  }
}
