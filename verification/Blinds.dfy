/** Where the button and the blinds go, and what they take. */
module Blinds {
  import opened Arithmetic
  import opened Tables
  import opened Betting
  import opened HandStart
  import opened Clockwise

  /** Who is dealt in. */
  function In(seats: seq<Seat>): (marks: seq<bool>)
    ensures |marks| == |seats|
    ensures forall i :: 0 <= i < |seats| ==> marks[i] == (seats[i].chips > 0 && !seats[i].sittingOut)
  {
    seq(|seats|, i requires 0 <= i < |seats| => seats[i].chips > 0 && !seats[i].sittingOut)
  }

  predicate Ascending(dealt: seq<nat>) {
    forall i, j :: 0 <= i < j < |dealt| ==> dealt[i] < dealt[j]
  }

  /** `dealt` lists the marked positions in order. */
  ghost predicate Lists(dealt: seq<nat>, marks: seq<bool>) {
    Ascending(dealt) && forall x: nat :: x in dealt <==> x < |marks| && marks[x]
  }

  lemma {:induction false} DealtLists(seats: seq<Seat>)
    ensures Lists(DealtInFrom(seats, 0), In(seats))
  {
  }

  /** The last of the list is followed by the first. */
  lemma {:induction false} LastWraps(dealt: seq<nat>, marks: seq<bool>, x: nat)
    requires Lists(dealt, marks) && dealt != [] && x in dealt
    ensures dealt[0] < |marks| && dealt[|dealt| - 1] < |marks| && dealt[0] <= x <= dealt[|dealt| - 1]
    ensures Ahead(dealt[|dealt| - 1] + 1, dealt[0], |marks|) <= Ahead(dealt[|dealt| - 1] + 1, x, |marks|)
  {
    var m :| 0 <= m < |dealt| && dealt[m] == x;
    var n, a := |marks|, dealt[|dealt| - 1];
    assert dealt[0] in dealt && a in dealt;
    if a + 1 < n { ModIs(a + 1, 0, a + 1, n); } else { ModIs(a + 1, 1, 0, n); }
  }

  lemma {:induction false} NextAscends(dealt: seq<nat>, marks: seq<bool>, k: nat, x: nat)
    requires Lists(dealt, marks) && k + 1 < |dealt| && x in dealt
    ensures dealt[k + 1] < |marks| && x < |marks|
    ensures Ahead(dealt[k] + 1, dealt[k + 1], |marks|) <= Ahead(dealt[k] + 1, x, |marks|)
  {
    var m :| 0 <= m < |dealt| && dealt[m] == x;
    assert dealt[k] < dealt[k + 1] && dealt[k + 1] in dealt;
    assert m > k ==> dealt[k + 1] <= x;
    assert m <= k ==> x <= dealt[k];
    ModIs(dealt[k] + 1, 0, dealt[k] + 1, |marks|);
  }

  /** The list goes clockwise, without leaving anybody out. */
  lemma {:induction false} NextIn(dealt: seq<nat>, marks: seq<bool>, k: nat)
    requires Lists(dealt, marks) && k < |dealt|
    ensures FirstOf(marks, dealt[k] + 1, dealt[(k + 1) % |dealt|])
  {
    var c := dealt[(k + 1) % |dealt|];
    assert c in dealt;
    if k + 1 < |dealt| { ModIs(k + 1, 0, k + 1, |dealt|); } else { ModIs(k + 1, 1, 0, |dealt|); }
    forall x | 0 <= x < |marks| && marks[x] ensures Ahead(dealt[k] + 1, c, |marks|) <= Ahead(dealt[k] + 1, x, |marks|) {
      if k + 1 < |dealt| {
        NextAscends(dealt, marks, k, x);
      } else {
        LastWraps(dealt, marks, x);
      }
    }
  }

  lemma {:induction false} ListedApart(dealt: seq<nat>, marks: seq<bool>, i: nat, j: nat)
    requires Lists(dealt, marks) && i < |dealt| && j < |dealt| && i != j
    ensures dealt[i] != dealt[j] && dealt[i] < |marks| && marks[dealt[i]]
  {
    assert dealt[i] in dealt;
  }

  /** Nobody of the `n` dealt in sits clockwise between the dealer and the small blind, nor between the small and the
      big blind; of two players the dealer is the small blind. */
  predicate Placed(marks: seq<bool>, n: nat, d: nat, sb: nat, bb: nat) {
    && d < |marks| && marks[d] && sb != bb && bb != d
    && (if n == 2 then sb == d else sb != d && FirstOf(marks, d + 1, sb))
    && FirstOf(marks, sb + 1, bb)
  }

  /** What the blinds take: as much as there is of each, and nothing from anybody else. */
  function Due(t: Table, i: nat, sb: nat, bb: nat): int
    requires i < |t.seats|
  {
    if i == sb then Min(t.seats[i].chips, t.smallBlind) else if i == bb then Min(t.seats[i].chips, t.bigBlind) else 0
  }

  ghost predicate Posted(t: Table, r: Table, d: nat, sb: nat, bb: nat) {
    && |r.seats| == |t.seats| && sb < |t.seats| && bb < |t.seats|
    && r.pot == Due(t, sb, sb, bb) + Due(t, bb, sb, bb) && r.currentBet == r.lastRaise == t.bigBlind
    && forall i :: 0 <= i < |t.seats| ==>
         var s, due := t.seats[i], Due(t, i, sb, bb);
         r.seats[i] == s.(isDealer := i == d, isSmallBlind := i == sb, isBigBlind := i == bb, chips := s.chips - due,
                          roundBet := s.roundBet + due, totalBet := s.totalBet + due,
                          allIn := s.allIn || ((i == sb || i == bb) && s.chips == due))
  }

  lemma {:induction false} BlindsTaken(t: Table, d: nat, sb: nat, bb: nat, orbit: int)
    requires sb < |t.seats| && bb < |t.seats| && sb != bb
    ensures Posted(t, PostBlinds(Buttoned(t, d, sb, bb, orbit), sb, bb), d, sb, bb)
  {
  }

  // What a seat holds for a hand.
  datatype Post = Button | SmallBlind | BigBlind

  /** How far behind the button among those dealt in: of two players the dealer has the small blind. */
  function Place(post: Post, n: nat): nat {
    match post
    case Button => 0
    case SmallBlind => if n == 2 then 0 else 1
    case BigBlind => if n == 2 then 1 else 2
  }

  /** Which of the `n` dealt in it is. */
  function Turn(orbit: nat, post: Post, n: nat): (k: nat)
    requires n > 0
    ensures k < n
  {
    (orbit + Place(post, n)) % n
  }

  lemma {:induction false} Places(orbit: nat, n: nat)
    requires n >= 2 && orbit < n
    ensures SmallBlindAt(orbit, n) == Turn(orbit, SmallBlind, n) && BigBlindAt(orbit, n) == Turn(orbit, BigBlind, n)
    ensures orbit % n == orbit == Turn(orbit, Button, n)
    ensures Turn(orbit, BigBlind, n) == (Turn(orbit, SmallBlind, n) + 1) % n
  {
    ModIs(orbit, 0, orbit, n);
    ModTwice(orbit + Place(SmallBlind, n), 1, n);
  }

  lemma {:induction false} Apart(orbit: nat, n: nat)
    requires n >= 2 && orbit < n
    ensures Turn(orbit, SmallBlind, n) != Turn(orbit, BigBlind, n) && Turn(orbit, BigBlind, n) != orbit
    ensures if n == 2 then Turn(orbit, SmallBlind, n) == orbit
            else Turn(orbit, SmallBlind, n) == (orbit + 1) % n && Turn(orbit, SmallBlind, n) != orbit
  {
    ModIs(orbit, 0, orbit, n);
    ModSucc(orbit, n);
    ModSucc(orbit + 1, n);
  }

  lemma {:induction false} Onward(orbit: nat, post: Post, n: nat)
    requires orbit < n
    ensures 0 <= NextOrbit(orbit, n) && Turn(NextOrbit(orbit, n), post, n) == (Turn(orbit, post, n) + 1) % n
  {
    var place := Place(post, n);
    OrbitFits(orbit, n);
    ModTwice(orbit + place, 1, n);
    ModTwice(orbit + 1, place, n);
  }

  lemma {:induction false} Around(dealt: seq<nat>, marks: seq<bool>, orbit: nat, i: nat, j: nat)
    requires Lists(dealt, marks) && orbit < |dealt| && i < |dealt| && j == (i + 1) % |dealt| && j != orbit && i != j
    requires if |dealt| == 2 then i == orbit else i == (orbit + 1) % |dealt| && i != orbit
    ensures Placed(marks, |dealt|, dealt[orbit], dealt[i], dealt[j])
  {
    ListedApart(dealt, marks, orbit, j);
    ListedApart(dealt, marks, i, j);
    if |dealt| != 2 {
      ListedApart(dealt, marks, i, orbit);
      NextIn(dealt, marks, orbit);
    }
    NextIn(dealt, marks, i);
  }

  lemma {:induction false} AllPlaced(dealt: seq<nat>, marks: seq<bool>, orbit: nat)
    requires Lists(dealt, marks) && |dealt| >= 2 && orbit < |dealt|
    ensures var n := |dealt|;
      Placed(marks, n, dealt[orbit], dealt[Turn(orbit, SmallBlind, n)], dealt[Turn(orbit, BigBlind, n)])
  {
    var n := |dealt|;
    Places(orbit, n);
    Apart(orbit, n);
    Around(dealt, marks, orbit, Turn(orbit, SmallBlind, n), Turn(orbit, BigBlind, n));
  }

  lemma {:induction false} RotatedIs(t: Table, dealt: seq<nat>, orbit: nat)
    requires dealt == DealtInFrom(t.seats, 0) && |dealt| >= 2 && orbit == NextOrbit(t.dealerOrbitCount, |dealt|)
    requires orbit < |dealt|
    ensures var n := |dealt|;
      var sb, bb := dealt[Turn(orbit, SmallBlind, n)], dealt[Turn(orbit, BigBlind, n)];
      && (sb != bb ==> Posted(t, RotateDealerAndBlinds(t), dealt[orbit], sb, bb))
      && RotateDealerAndBlinds(t).dealerOrbitCount == orbit
  {
    var n := |dealt|;
    Places(orbit, n);
    var sb, bb := dealt[Turn(orbit, SmallBlind, n)], dealt[Turn(orbit, BigBlind, n)];
    assert RotateDealerAndBlinds(t) == PostBlinds(Buttoned(t, dealt[orbit], sb, bb, orbit), sb, bb);
    if sb != bb {
      BlindsTaken(t, dealt[orbit], sb, bb, orbit);
    }
  }

  /** The button and the blinds of a hand: clockwise neighbours among those dealt in, each paying its due. */
  lemma {:induction false} BlindsGo(t: Table) returns (d: nat, sb: nat, bb: nat)
    requires |DealtInFrom(t.seats, 0)| >= 2
    ensures Placed(In(t.seats), |DealtInFrom(t.seats, 0)|, d, sb, bb) && Posted(t, RotateDealerAndBlinds(t), d, sb, bb)
    ensures var dealt := DealtInFrom(t.seats, 0);
      var n, orbit := |dealt|, NextOrbit(t.dealerOrbitCount, |dealt|);
      && 0 <= orbit < n && RotateDealerAndBlinds(t).dealerOrbitCount == orbit
      && d == dealt[Turn(orbit, Button, n)] && sb == dealt[Turn(orbit, SmallBlind, n)]
      && bb == dealt[Turn(orbit, BigBlind, n)]
  {
    var dealt := DealtInFrom(t.seats, 0);
    var n := |dealt|;
    OrbitFits(t.dealerOrbitCount, n);
    var orbit: nat := NextOrbit(t.dealerOrbitCount, n);
    Places(orbit, n);
    d, sb, bb := dealt[orbit], dealt[Turn(orbit, SmallBlind, n)], dealt[Turn(orbit, BigBlind, n)];
    DealtLists(t.seats);
    AllPlaced(dealt, In(t.seats), orbit);
    RotatedIs(t, dealt, orbit);
  }
}
