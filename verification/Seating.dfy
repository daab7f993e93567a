/** A table's seat list and its two look-up maps: by user and by name. */
module Seating {
  import opened Tables
  import opened ShowdownProofs
  import opened Betting

  const STARTING_CHIPS := 2000

  // `seatIndex` is each player's own record of where they sit.
  datatype ActiveTable = ActiveTable(
    engine: Table, seatIndex: seq<int>, userMap: map<nat, int>, userIDs: map<string, nat>,
    buyIn: int, maxPlayers: int, refillAllowed: bool)

  predicate Live(t: Table) {
    t.gameStarted && !t.intermission
  }

  /** Both maps and the seat list tell the same story. */
  ghost predicate SeatsAgree(a: ActiveTable) {
    var seats := a.engine.seats;
    && |a.seatIndex| == |seats|
    && (forall k :: 0 <= k < |seats| ==> a.seatIndex[k] == k)
    && (forall k :: 0 <= k < |seats| ==>
          seats[k].name in a.userIDs && a.userIDs[seats[k].name] in a.userMap
              && a.userMap[a.userIDs[seats[k].name]] == k)
    && (forall u :: u in a.userMap ==>
          0 <= a.userMap[u] < |seats| && seats[a.userMap[u]].name in a.userIDs
              && a.userIDs[seats[a.userMap[u]].name] == u)
    && (forall n :: n in a.userIDs ==> a.userIDs[n] in a.userMap && seats[a.userMap[a.userIDs[n]]].name == n)
  }

  lemma {:induction false} AgreeingNames(a: ActiveTable)
    requires SeatsAgree(a)
    ensures UniqueNames(a.engine.seats)
  {
  }

  // ---- Joining ----

  function NewSeat(name: string, chips: int): Seat {
    Seat(name, false, chips, 0, 0, false, false, false, false, false, false, false, CARD_BACKS)
  }

  function WithPlayer(a: ActiveTable, user: nat, name: string, chips: int): ActiveTable {
    a.(engine := a.engine.(seats := a.engine.seats + [NewSeat(name, chips)]),
       seatIndex := a.seatIndex + [|a.engine.seats|],
       userMap := a.userMap[user := |a.engine.seats|],
       userIDs := a.userIDs[name := user])
  }

  lemma {:induction false} JoinAgrees(a: ActiveTable, user: nat, name: string, chips: int)
    requires SeatsAgree(a) && user !in a.userMap && name !in a.userIDs
    ensures SeatsAgree(WithPlayer(a, user, name, chips))
  {
  }

  // ---- Leaving ----

  /** The first position whose player claims that seat, or the length of the list. */
  function SeatedAt(seatIndex: seq<int>, seat: int): (ix: nat)
    ensures ix <= |seatIndex|
    ensures ix < |seatIndex| ==> seatIndex[ix] == seat
    ensures forall i :: 0 <= i < ix ==> seatIndex[i] != seat
  {
    if seatIndex == [] || seatIndex[0] == seat then 0 else 1 + SeatedAt(seatIndex[1..], seat)
  }

  function Numbered(n: nat): (r: seq<int>)
    ensures |r| == n && forall i :: 0 <= i < n ==> r[i] == i
  {
    seq(n, i => i)
  }

  /** The user map once the seats from `i` on are renumbered. */
  function Remap(seats: seq<Seat>, userIDs: map<string, nat>, userMap: map<nat, int>, i: nat): map<nat, int>
    requires i <= |seats|
    decreases |seats| - i
  {
    if i == |seats| then userMap
    else
      var name := seats[i].name;
      Remap(seats, userIDs, if name in userIDs then userMap[userIDs[name] := i] else userMap, i + 1)
  }

  function RemoveSeat(seats: seq<Seat>, k: nat): seq<Seat>
    requires k < |seats|
  {
    seats[..k] + seats[k + 1..]
  }

  /** Player `k`, known as `user`, gives up the seat. */
  function WithoutPlayer(a: ActiveTable, user: nat, k: nat): ActiveTable
    requires k < |a.engine.seats|
  {
    var seats := RemoveSeat(a.engine.seats, k);
    var userIDs := a.userIDs - {a.engine.seats[k].name};
    a.(engine := a.engine.(seats := seats, gameStarted := a.engine.gameStarted && |seats| >= 2),
       seatIndex := Numbered(|seats|), userIDs := userIDs,
       userMap := Remap(seats, userIDs, a.userMap - {user}, 0))
  }

  lemma {:induction false} RemapExact(seats: seq<Seat>, userIDs: map<string, nat>, userMap: map<nat, int>, i: nat)
    requires i <= |seats|
    requires forall k :: 0 <= k < |seats| ==> seats[k].name in userIDs
    requires forall j, k :: 0 <= j < k < |seats| ==> userIDs[seats[j].name] != userIDs[seats[k].name]
    ensures var r := Remap(seats, userIDs, userMap, i);
      && (forall u :: u in userMap ==> u in r)
      && (forall u :: u in r ==> u in userMap || exists k :: i <= k < |seats| && userIDs[seats[k].name] == u)
      && (forall k :: i <= k < |seats| ==> userIDs[seats[k].name] in r && r[userIDs[seats[k].name]] == k)
      && (forall u :: u in userMap && (forall k :: i <= k < |seats| ==> userIDs[seats[k].name] != u) ==>
          r[u] == userMap[u])
    decreases |seats| - i
  {
    if i < |seats| {
      RemapExact(seats, userIDs, userMap[userIDs[seats[i].name] := i], i + 1);
    }
  }

  lemma {:induction false} OtherSeat(a: ActiveTable, k: nat, j: nat)
    requires SeatsAgree(a) && k < |a.engine.seats| && j < |a.engine.seats| - 1
    ensures var s, m := RemoveSeat(a.engine.seats, k)[j], if j < k then j else j + 1;
      && s == a.engine.seats[m] && s.name in a.userIDs && s.name != a.engine.seats[k].name
      && a.userIDs[s.name] in a.userMap && a.userMap[a.userIDs[s.name]] == m
  {
    var m := if j < k then j else j + 1;
    assert a.userMap[a.userIDs[a.engine.seats[m].name]] == m && a.userMap[a.userIDs[a.engine.seats[k].name]] == k;
  }

  lemma {:induction false} NameStays(a: ActiveTable, k: nat, n: string) returns (j: nat)
    requires SeatsAgree(a) && k < |a.engine.seats| && n in a.userIDs && n != a.engine.seats[k].name
    ensures j < |a.engine.seats| - 1 && RemoveSeat(a.engine.seats, k)[j].name == n
  {
    var m := a.userMap[a.userIDs[n]];
    j := if m < k then m else m - 1;
  }

  /** The names left cover the seats left, and the users left. */
  lemma {:induction false} OthersStay(a: ActiveTable, user: nat, k: nat)
    requires SeatsAgree(a) && k < |a.engine.seats| && a.userIDs[a.engine.seats[k].name] == user
    ensures var seats, userIDs := RemoveSeat(a.engine.seats, k), a.userIDs - {a.engine.seats[k].name};
      && (forall j :: 0 <= j < |seats| ==> seats[j].name in userIDs)
      && (forall i, j :: 0 <= i < j < |seats| ==> userIDs[seats[i].name] != userIDs[seats[j].name])
      && (forall n :: n in userIDs ==> exists j :: 0 <= j < |seats| && seats[j].name == n)
      && (forall u :: u in a.userMap && u != user ==> exists j :: 0 <= j < |seats| && userIDs[seats[j].name] == u)
  {
    var was, seats := a.engine.seats, RemoveSeat(a.engine.seats, k);
    var userIDs := a.userIDs - {was[k].name};
    forall j: nat | j < |seats|
      ensures seats[j].name in userIDs && userIDs[seats[j].name] in a.userMap
      ensures a.userMap[userIDs[seats[j].name]] == if j < k then j else j + 1
    {
      OtherSeat(a, k, j);
    }
    forall n | n in userIDs ensures exists j :: 0 <= j < |seats| && seats[j].name == n {
      var j := NameStays(a, k, n);
    }
    forall u | u in a.userMap && u != user ensures exists j :: 0 <= j < |seats| && userIDs[seats[j].name] == u {
      var j := NameStays(a, k, was[a.userMap[u]].name);
    }
  }

  lemma {:induction false} RebuiltAgrees(a: ActiveTable, seats: seq<Seat>, userIDs: map<string, nat>,
      userMap: map<nat, int>)
    requires a.engine.seats == seats && a.userIDs == userIDs && a.seatIndex == Numbered(|seats|)
    requires a.userMap == Remap(seats, userIDs, userMap, 0)
    requires forall j :: 0 <= j < |seats| ==> seats[j].name in userIDs
    requires forall i, j :: 0 <= i < j < |seats| ==> userIDs[seats[i].name] != userIDs[seats[j].name]
    requires forall n :: n in userIDs ==> exists j :: 0 <= j < |seats| && seats[j].name == n
    requires forall u :: u in userMap ==> exists j :: 0 <= j < |seats| && userIDs[seats[j].name] == u
    ensures SeatsAgree(a)
  {
    RemapExact(seats, userIDs, userMap, 0);
    forall u | u in a.userMap
      ensures 0 <= a.userMap[u] < |seats| && userIDs[seats[a.userMap[u]].name] == u
    {
      var j :| 0 <= j < |seats| && userIDs[seats[j].name] == u;
      assert a.userMap[userIDs[seats[j].name]] == j;
    }
    forall n | n in userIDs ensures userIDs[n] in a.userMap && seats[a.userMap[userIDs[n]]].name == n {
      var j :| 0 <= j < |seats| && seats[j].name == n;
      assert a.userMap[userIDs[seats[j].name]] == j;
    }
  }

  lemma {:induction false} LeaveAgrees(a: ActiveTable, user: nat, k: nat)
    requires SeatsAgree(a) && k < |a.engine.seats| && a.userIDs[a.engine.seats[k].name] == user
    ensures SeatsAgree(WithoutPlayer(a, user, k))
  {
    OthersStay(a, user, k);
    var seats := RemoveSeat(a.engine.seats, k);
    RebuiltAgrees(WithoutPlayer(a, user, k), seats, a.userIDs - {a.engine.seats[k].name}, a.userMap - {user});
  }

  // ---- Changing the hand, not the seats ----

  lemma {:induction false} SameSeatsAgree(a: ActiveTable, engine: Table)
    requires SeatsAgree(a) && |engine.seats| == |a.engine.seats|
    requires forall k :: 0 <= k < |engine.seats| ==> engine.seats[k].name == a.engine.seats[k].name
    ensures SeatsAgree(a.(engine := engine))
  {
  }

  /** Saving the state renumbers every player: no change at a table whose books agree. */
  lemma {:induction false} SavingChangesNothing(a: ActiveTable)
    requires SeatsAgree(a)
    ensures a.(seatIndex := Numbered(|a.engine.seats|)) == a
  {
  }
}
