/** Each category pass of the greedy solver, once the passes above it have failed, returns the best hand. */
module CategoryProofs {
  import opened Sequences
  import opened Cards
  import opened BestHand
  import opened HandOrder
  import opened Greedy
  import opened Refinement

  ghost predicate Pool(pool: seq<Card>) {
    ValidCards(pool) && Sorted(pool) && |pool| >= 5
  }

  ghost predicate NoneAbove(k: int, pool: seq<Card>) {
    forall j :: k < j <= 9 ==> !Possible(j, pool)
  }

  /** The value the server's solver reports: its category and the tiebreak read off its first five cards. */
  function ValueOf(k: int, five: seq<Card>): Evaluated
    requires |five| == 5
  {
    Evaluated(k, TieOf(k, Ranks(five)))
  }

  /** `five` is a selection from the pool that no other selection beats. */
  ghost predicate Best(pool: seq<Card>, five: seq<Card>, v: Evaluated) {
    && Within(five, pool)
    && EvaluateFive(five) == v
    && forall other :: Within(other, pool) ==> Compare(EvaluateFive(other), v) <= 0
  }

  /** What a successful category-`k` pass has to deliver. */
  ghost predicate Solved(k: int, pool: seq<Card>, cards: seq<Card>) {
    && |cards| >= 5
    && Shaped(k, Ranks(cards[..5]))
    && Best(pool, cards[..5], ValueOf(k, cards[..5]))
  }

  // ---- Selections ----

  lemma {:induction false} WithinFacts(five: seq<Card>, pool: seq<Card>)
    requires Pool(pool) && Within(five, pool)
    ensures ValidCards(five) && Reads(five, EvaluateFive(five))
    ensures forall r :: Count(five, r) <= Count(pool, r) <= 4
    ensures forall r :: HasRank(five, r) ==> HasRank(pool, r)
  {
    Reading(five);
    forall r ensures Count(five, r) <= Count(pool, r) <= 4 {
      CountWithin(five, pool, r);
      CountAtMostFour(pool, r);
    }
    forall r | HasRank(five, r) ensures HasRank(pool, r) {
      HasRankCount(five, r);
      HasRankCount(pool, r);
    }
  }

  lemma {:induction false} FlushWithin(five: seq<Card>, pool: seq<Card>)
    requires Pool(pool) && Within(five, pool) && IsFlush(five)
    ensures var suited := OfSuit(pool, five[0].suit);
      && |suited| >= 5
      && (forall c :: c in five ==> c in suited)
      && (forall r :: HasRank(five, r) ==> HasRank(suited, r))
  {
    var suited := OfSuit(pool, five[0].suit);
    assert forall c :: c in five ==> c in suited;
    DistinctWithin(five, suited);
    forall r | HasRank(five, r) ensures HasRank(suited, r) {
      var i :| 0 <= i < |five| && five[i].rank == r;
      assert five[i] in five && five[i] in suited;
      var j :| 0 <= j < |suited| && suited[j] == five[i];
    }
  }

  lemma {:induction false} TopExists(pool: seq<Card>, n: nat, r: int)
    requires ValidCards(pool) && n > 0 && Count(pool, r) == n
    ensures exists a :: TopExactly(pool, n, a)
    decreases ACE - r
  {
    CountAtMostFour(pool, r);
    if !TopExactly(pool, n, r) {
      var q :| q > r && Count(pool, q) == n;
      CountAtMostFour(pool, q);
      TopExists(pool, n, q);
    }
  }

  lemma {:induction false} RunCarries(a: seq<Card>, b: seq<Card>, h: int)
    requires RunTo(a, h) && forall r :: HasRank(a, r) ==> HasRank(b, r)
    ensures RunTo(b, h) && HasStraight(b)
  {
    if h >= 5 {
      assert StraightFrom(b, h);
    }
  }

  lemma {:induction false} SuitedReached(pool: seq<Card>, five: seq<Card>, h: int)
    requires Pool(pool) && Within(five, pool) && IsFlush(five)
    ensures Possible(6, pool)
    ensures RunTo(five, h) ==> Possible(9, pool)
  {
    FlushWithin(five, pool);
    if RunTo(five, h) {
      RunCarries(five, OfSuit(pool, five[0].suit), h);
    }
  }

  lemma {:induction false} FullHouseReached(pool: seq<Card>, x: int, y: int)
    requires Pool(pool) && x != y && Count(pool, x) == 3 && Count(pool, y) >= 2
    ensures Possible(7, pool)
  {
    TopExists(pool, 3, x);
    var a :| TopExactly(pool, 3, a);
    var b := if a == x then y else x;
    assert b != a && Count(pool, b) >= 2;
  }

  /** The ranks of a group of `n` or more, when no larger group is left to find. */
  lemma {:induction false} GroupReached(pool: seq<Card>, x: int, n: nat)
    requires Pool(pool) && 2 <= n <= Count(pool, x) <= 4
    ensures n == 4 ==> Possible(8, pool)
    ensures n == 3 ==> Possible(4, pool) || Possible(8, pool)
    ensures n == 2 ==> Possible(2, pool) || Possible(4, pool) || Possible(8, pool)
  {
  }

  /** A selection of some category means that pass, or a higher one, succeeds on the pool. */
  lemma {:induction false} CategoryReached(pool: seq<Card>, five: seq<Card>, e: Evaluated)
    requires Pool(pool) && Within(five, pool) && Reads(five, e)
    requires forall r :: Count(five, r) <= Count(pool, r) <= 4
    requires forall r :: HasRank(five, r) ==> HasRank(pool, r)
    ensures exists j :: e.category <= j <= 9 && Possible(j, pool)
  {
    var t := e.tiebreak;
    match e.category
    case 9 => SuitedReached(pool, five, t[0]);
    case 8 => assert Possible(8, pool);
    case 7 =>
      if Count(pool, t[0]) == 4 {
        assert Possible(8, pool);
      } else {
        FullHouseReached(pool, t[0], t[1]);
      }
    case 6 => SuitedReached(pool, five, 0);
    case 5 =>
      RunCarries(five, pool, t[0]);
      assert Possible(5, pool);
    case 4 => GroupReached(pool, t[0], 3);
    case 3 => assert Possible(3, pool);
    case 2 => GroupReached(pool, t[0], 2);
    case _ => assert Possible(1, pool);
  }

  /** No selection reaches a category whose pass, and every pass above it, failed. */
  lemma {:induction false} Bounded(k: int, pool: seq<Card>, five: seq<Card>)
    requires Pool(pool) && Within(five, pool) && NoneAbove(k, pool)
    ensures EvaluateFive(five).category <= k
  {
    WithinFacts(five, pool);
    CategoryReached(pool, five, EvaluateFive(five));
  }

  // ---- Kickers ----

  lemma {:induction false} DistinctAppend(a: seq<Card>, b: seq<Card>)
    requires Distinct(a) && Distinct(b) && forall c :: c in a ==> c !in b
    ensures Distinct(a + b)
  {
    assert forall i :: 0 <= i < |a| ==> a[i] in a;
  }

  lemma {:induction false} GroupAndKickers(pool: seq<Card>, group: seq<Card>, n: nat)
    requires Pool(pool) && Distinct(group) && forall c :: c in group ==> c in pool
    ensures var rest := Without(pool, group);
      && Sorted(rest) && Distinct(rest) && |group| + |rest| >= |pool|
      && ValidCards(group + Take(rest, n))
      && (forall c :: c in group + Take(rest, n) ==> c in pool)
  {
    var rest := Without(pool, group);
    var p := (c: Card) => c !in group;
    FilterSorted(pool, p);
    FilterDistinct(pool, p);
    DistinctWithin(pool, group + rest);
    DistinctAppend(group, Take(rest, n));
  }

  lemma {:induction false} OfRankFacts(pool: seq<Card>, r: int)
    requires Pool(pool)
    ensures var g := OfRank(pool, r);
      Distinct(g) && (forall c :: c in g ==> c in pool) && forall i :: 0 <= i < |g| ==> g[i].rank == r
  {
    FilterDistinct(pool, (c: Card) => c.rank == r);
    var g := OfRank(pool, r);
    assert forall i :: 0 <= i < |g| ==> g[i] in g;
  }

  lemma {:induction false} PickRanks(five: seq<Card>, ks: seq<int>) returns (picks: seq<Card>)
    requires forall r :: r in ks ==> Count(five, r) > 0
    ensures |picks| == |ks| && forall i :: 0 <= i < |ks| ==> picks[i].rank == ks[i] && picks[i] in five
  {
    if ks == [] {
      picks := [];
    } else {
      assert ks[0] in ks;
      var g := OfRank(five, ks[0]);
      assert g[0] in g;
      var more := PickRanks(five, ks[1..]);
      picks := [g[0]] + more;
    }
  }

  /** The kickers of any selection are bounded, position by position, by the best unused cards. */
  lemma {:induction false} KickersDominate(five: seq<Card>, pool: seq<Card>, used: seq<Card>, ks: seq<int>)
    requires Pool(pool) && Within(five, pool) && Descending(ks)
    requires forall r :: r in ks ==> Count(five, r) > 0
    requires forall c :: c in used ==> c.rank !in ks
    ensures |ks| <= |Without(pool, used)|
    ensures forall i :: 0 <= i < |ks| ==> ks[i] <= Without(pool, used)[i].rank
  {
    var picks := PickRanks(five, ks);
    FilterSorted(pool, (c: Card) => c !in used);
    forall c | c in picks ensures c in Without(pool, used) {
      var i :| 0 <= i < |picks| && picks[i] == c;
      assert ks[i] in ks;
    }
    TopDominates(picks, Without(pool, used));
  }

  lemma {:induction false} LexLess(t: seq<int>, u: seq<int>, i: nat, n: nat)
    requires i <= n < |t| == |u|
    requires (forall k :: i <= k < n ==> t[k] == u[k]) && t[n] < u[n]
    ensures TieDiff(t, u, i) < 0
    decreases n - i
  {
    if i < n {
      LexLess(t, u, i + 1, n);
    }
  }

  /** Only hands of the same category are left to compare. */
  lemma {:induction false} BestByTies(k: int, pool: seq<Card>, five: seq<Card>, t: seq<int>)
    requires Pool(pool) && Within(five, pool) && NoneAbove(k, pool) && EvaluateFive(five) == Evaluated(k, t)
    requires forall other :: Within(other, pool) && EvaluateFive(other).category == k ==>
               TieDiff(EvaluateFive(other).tiebreak, t, 0) <= 0
    ensures Best(pool, five, Evaluated(k, t))
  {
    forall other | Within(other, pool) ensures Compare(EvaluateFive(other), Evaluated(k, t)) <= 0 {
      Bounded(k, pool, other);
    }
  }

  lemma {:induction false} SolvedByFive(k: int, pool: seq<Card>, cards: seq<Card>)
    requires |cards| == 5 && Shaped(k, Ranks(cards)) && Best(pool, cards, ValueOf(k, cards))
    ensures Solved(k, pool, cards)
  {
    assert cards[..5] == cards;
  }

  // ---- Four of a kind ----

  lemma {:induction false} QuadsUnbeaten(pool: seq<Card>, a: int, other: seq<Card>, t: seq<int>)
    requires Pool(pool) && TopExactly(pool, 4, a) && Within(other, pool) && Reads(other, Evaluated(8, t))
    requires forall r :: Count(other, r) <= Count(pool, r) <= 4
    requires Without(pool, OfRank(pool, a)) != []
    ensures TieDiff(t, [a, Without(pool, OfRank(pool, a))[0].rank], 0) <= 0
  {
    var u := [a, Without(pool, OfRank(pool, a))[0].rank];
    assert Count(pool, t[0]) == 4;
    if t[0] < a {
      LexLess(t, u, 0, 0);
    } else {
      KickersDominate(other, pool, OfRank(pool, a), [t[1]]);
      TieDiffDominated(t, u, 0);
    }
  }

  lemma {:induction false} BestQuads(pool: seq<Card>, cards: seq<Card>)
    requires Pool(pool) && NoneAbove(8, pool) && Found(8, pool, cards)
    ensures Solved(8, pool, cards)
  {
    var a := cards[0].rank;
    var group := OfRank(pool, a);
    var rest := Without(pool, group);
    OfRankFacts(pool, a);
    GroupAndKickers(pool, group, 1);
    assert rest[0] in rest;
    EvaluateQuads(cards, a, rest[0].rank);
    forall other | Within(other, pool) && EvaluateFive(other).category == 8
      ensures TieDiff(EvaluateFive(other).tiebreak, [a, rest[0].rank], 0) <= 0
    {
      WithinFacts(other, pool);
      QuadsUnbeaten(pool, a, other, EvaluateFive(other).tiebreak);
    }
    BestByTies(8, pool, cards, [a, rest[0].rank]);
    SolvedByFive(8, pool, cards);
  }

  // ---- Full house ----

  lemma {:induction false} FullHouseUnbeaten(pool: seq<Card>, a: int, b: int, other: seq<Card>, t: seq<int>)
    requires Pool(pool) && NoneAbove(7, pool) && TopExactly(pool, 3, a) && TopPaired(pool, a, b)
    requires Within(other, pool) && Reads(other, Evaluated(7, t))
    requires forall r :: Count(other, r) <= Count(pool, r) <= 4
    ensures TieDiff(t, [a, b], 0) <= 0
  {
    assert !Possible(8, pool);
    assert Count(pool, t[0]) == 3 && Count(pool, t[1]) >= 2;
    if t[0] < a {
      LexLess(t, [a, b], 0, 0);
    } else {
      TieDiffDominated(t, [a, b], 0);
    }
  }

  /** The triple and the first two of the other group. */
  lemma {:induction false} FullHouseCards(pool: seq<Card>, a: int, b: int, five: seq<Card>)
    requires Pool(pool) && TopExactly(pool, 3, a) && TopPaired(pool, a, b)
    requires five == (OfRank(pool, a) + OfRank(pool, b))[..5]
    ensures Within(five, pool) && ValidCards(five) && Ranks(five) == [a, a, a, b, b]
  {
    OfRankFacts(pool, a);
    OfRankFacts(pool, b);
    var all := OfRank(pool, a) + OfRank(pool, b);
    DistinctAppend(OfRank(pool, a), OfRank(pool, b));
    forall c | c in five ensures c in pool {
      var i :| 0 <= i < 5 && five[i] == c;
      assert all[i] in all;
    }
  }

  lemma {:induction false} FullHousesUnbeaten(pool: seq<Card>, a: int, b: int)
    requires Pool(pool) && NoneAbove(7, pool) && TopExactly(pool, 3, a) && TopPaired(pool, a, b)
    ensures forall other :: Within(other, pool) && EvaluateFive(other).category == 7 ==>
              TieDiff(EvaluateFive(other).tiebreak, [a, b], 0) <= 0
  {
    forall other | Within(other, pool) && EvaluateFive(other).category == 7
      ensures TieDiff(EvaluateFive(other).tiebreak, [a, b], 0) <= 0
    {
      WithinFacts(other, pool);
      FullHouseUnbeaten(pool, a, b, other, EvaluateFive(other).tiebreak);
    }
  }

  lemma {:induction false} BestFullHouse(pool: seq<Card>, cards: seq<Card>)
    requires Pool(pool) && NoneAbove(7, pool) && Found(7, pool, cards)
    ensures Solved(7, pool, cards)
  {
    var a, b := cards[0].rank, cards[3].rank;
    FullHouseCards(pool, a, b, cards[..5]);
    FullHouseReads(cards[..5], a, b);
    FullHousesUnbeaten(pool, a, b);
    BestByTies(7, pool, cards[..5], [a, b]);
  }

  lemma {:induction false} FullHouseReads(five: seq<Card>, a: int, b: int)
    requires ValidCards(five) && Ranks(five) == [a, a, a, b, b] && a != b
    ensures Shaped(7, Ranks(five)) && EvaluateFive(five) == Evaluated(7, [a, b]) == ValueOf(7, five)
  {
    EvaluateFullHouse(five, a, b);
    FullHouseShape(Ranks(five), a, b);
  }

  lemma {:induction false} FullHouseShape(r: seq<int>, a: int, b: int)
    requires r == [a, a, a, b, b]
    ensures Shaped(7, r) && TieOf(7, r) == [a, b]
  {
  }

  // ---- Three of a kind ----

  lemma {:induction false} TripsUnbeaten(pool: seq<Card>, a: int, other: seq<Card>, t: seq<int>)
    requires Pool(pool) && NoneAbove(4, pool) && TopExactly(pool, 3, a)
    requires Within(other, pool) && Reads(other, Evaluated(4, t))
    requires forall r :: Count(other, r) <= Count(pool, r) <= 4
    requires |Without(pool, OfRank(pool, a))| >= 2
    ensures var rest := Without(pool, OfRank(pool, a));
      TieDiff(t, [a, rest[0].rank, rest[1].rank], 0) <= 0
  {
    var rest := Without(pool, OfRank(pool, a));
    var u := [a, rest[0].rank, rest[1].rank];
    assert !Possible(8, pool);
    assert Count(pool, t[0]) == 3;
    if t[0] < a {
      LexLess(t, u, 0, 0);
    } else {
      KickersDominate(other, pool, OfRank(pool, a), [t[1], t[2]]);
      TieDiffDominated(t, u, 0);
    }
  }

  /** Without a second group, the cards around a single group have different ranks. */
  lemma {:induction false} KickersDescend(pool: seq<Card>, group: seq<Card>, i: nat)
    requires Pool(pool) && Distinct(group) && forall c :: c in group ==> c in pool
    requires i + 1 < |Without(pool, group)|
    requires Count(pool, Without(pool, group)[i].rank) <= 1
    ensures Without(pool, group)[i].rank > Without(pool, group)[i + 1].rank
  {
    GroupAndKickers(pool, group, 0);
    var rest := Without(pool, group);
    var x, y := rest[i], rest[i + 1];
    assert x in rest && y in rest;
    CountWithin([x, y], pool, x.rank);
    CountCons(x, [y], x.rank);
    assert [x] + [y] == [x, y];
    CountCons(y, [], x.rank);
  }

  /** The cards around the triple differ in rank: a second group would have made a full house. */
  lemma {:induction false} TripsKickers(pool: seq<Card>, a: int)
    requires Pool(pool) && NoneAbove(4, pool) && TopExactly(pool, 3, a) && |Without(pool, OfRank(pool, a))| >= 2
    ensures var rest := Without(pool, OfRank(pool, a));
      rest[0].rank != a && rest[1].rank != a && rest[0].rank > rest[1].rank
  {
    var group := OfRank(pool, a);
    var rest := Without(pool, group);
    OfRankFacts(pool, a);
    assert rest[0] in rest && rest[1] in rest;
    assert !Possible(7, pool);
    assert Count(pool, rest[0].rank) <= 1;
    KickersDescend(pool, group, 0);
  }

  lemma {:induction false} AllTripsUnbeaten(pool: seq<Card>, a: int, u: seq<int>)
    requires Pool(pool) && NoneAbove(4, pool) && TopExactly(pool, 3, a) && |Without(pool, OfRank(pool, a))| >= 2
    requires var rest := Without(pool, OfRank(pool, a)); u == [a, rest[0].rank, rest[1].rank]
    ensures forall other :: Within(other, pool) && EvaluateFive(other).category == 4 ==>
              TieDiff(EvaluateFive(other).tiebreak, u, 0) <= 0
  {
    forall other | Within(other, pool) && EvaluateFive(other).category == 4
      ensures TieDiff(EvaluateFive(other).tiebreak, u, 0) <= 0
    {
      WithinFacts(other, pool);
      TripsUnbeaten(pool, a, other, EvaluateFive(other).tiebreak);
    }
  }

  lemma {:induction false} BestTrips(pool: seq<Card>, cards: seq<Card>)
    requires Pool(pool) && NoneAbove(4, pool) && Found(4, pool, cards)
    ensures Solved(4, pool, cards)
  {
    var a := cards[0].rank;
    var rest := Without(pool, OfRank(pool, a));
    OfRankFacts(pool, a);
    GroupAndKickers(pool, OfRank(pool, a), 2);
    TripsKickers(pool, a);
    EvaluateTrips(cards, a, rest[0].rank, rest[1].rank);
    AllTripsUnbeaten(pool, a, [a, rest[0].rank, rest[1].rank]);
    BestByTies(4, pool, cards, [a, rest[0].rank, rest[1].rank]);
    SolvedByFive(4, pool, cards);
  }

  // ---- Two pair ----

  lemma {:induction false} NoTrips(k: int, pool: seq<Card>, r: int)
    requires Pool(pool) && k <= 3 && NoneAbove(k, pool)
    ensures Count(pool, r) <= 2
  {
    CountAtMostFour(pool, r);
    assert !Possible(8, pool) && !Possible(4, pool);
  }

  lemma {:induction false} TwoPairUnbeaten(pool: seq<Card>, a: int, b: int, other: seq<Card>, t: seq<int>)
    requires Pool(pool) && TopPaired(pool, -1, a) && TopPaired(pool, a, b)
    requires Within(other, pool) && Reads(other, Evaluated(3, t))
    requires forall r :: Count(other, r) <= Count(pool, r) <= 4
    requires Without(pool, OfRank(pool, a) + OfRank(pool, b)) != []
    ensures TieDiff(t, [a, b, Without(pool, OfRank(pool, a) + OfRank(pool, b))[0].rank], 0) <= 0
  {
    var pairs := OfRank(pool, a) + OfRank(pool, b);
    var u := [a, b, Without(pool, pairs)[0].rank];
    CountAtMostFour(pool, t[0]);
    assert Count(pool, t[0]) >= 2 && Count(pool, t[1]) >= 2;
    if t[0] < a {
      LexLess(t, u, 0, 0);
    } else if t[1] < b {
      LexLess(t, u, 0, 1);
    } else {
      KickersDominate(other, pool, pairs, [t[2]]);
      TieDiffDominated(t, u, 0);
    }
  }

  lemma {:induction false} BestTwoPair(pool: seq<Card>, cards: seq<Card>)
    requires Pool(pool) && NoneAbove(3, pool) && Found(3, pool, cards)
    ensures Solved(3, pool, cards)
  {
    var a := cards[0].rank;
    var b := cards[|OfRank(pool, a)|].rank;
    var pairs := OfRank(pool, a) + OfRank(pool, b);
    var rest := Without(pool, pairs);
    NoTrips(3, pool, a);
    NoTrips(3, pool, b);
    CountAtMostFour(pool, b);
    OfRankFacts(pool, a);
    OfRankFacts(pool, b);
    DistinctAppend(OfRank(pool, a), OfRank(pool, b));
    GroupAndKickers(pool, pairs, 1);
    assert rest[0] in rest;
    EvaluateTwoPair(cards, a, b, rest[0].rank);
    forall other | Within(other, pool) && EvaluateFive(other).category == 3
      ensures TieDiff(EvaluateFive(other).tiebreak, [a, b, rest[0].rank], 0) <= 0
    {
      WithinFacts(other, pool);
      TwoPairUnbeaten(pool, a, b, other, EvaluateFive(other).tiebreak);
    }
    BestByTies(3, pool, cards, [a, b, rest[0].rank]);
    SolvedByFive(3, pool, cards);
  }

  // ---- One pair ----

  lemma {:induction false} PairUnbeaten(pool: seq<Card>, a: int, other: seq<Card>, t: seq<int>)
    requires Pool(pool) && NoneAbove(2, pool) && TopExactly(pool, 2, a)
    requires Within(other, pool) && Reads(other, Evaluated(2, t))
    requires forall r :: Count(other, r) <= Count(pool, r) <= 4
    requires |Without(pool, OfRank(pool, a))| >= 3
    ensures var rest := Without(pool, OfRank(pool, a));
      TieDiff(t, [a, rest[0].rank, rest[1].rank, rest[2].rank], 0) <= 0
  {
    var rest := Without(pool, OfRank(pool, a));
    var u := [a, rest[0].rank, rest[1].rank, rest[2].rank];
    NoTrips(2, pool, t[0]);
    if t[0] < a {
      LexLess(t, u, 0, 0);
    } else {
      KickersDominate(other, pool, OfRank(pool, a), [t[1], t[2], t[3]]);
      TieDiffDominated(t, u, 0);
    }
  }

  lemma {:induction false} PairsUnbeaten(pool: seq<Card>, a: int, u: seq<int>)
    requires Pool(pool) && NoneAbove(2, pool) && TopExactly(pool, 2, a) && |Without(pool, OfRank(pool, a))| >= 3
    requires var rest := Without(pool, OfRank(pool, a)); u == [a, rest[0].rank, rest[1].rank, rest[2].rank]
    ensures forall other :: Within(other, pool) && EvaluateFive(other).category == 2 ==>
              TieDiff(EvaluateFive(other).tiebreak, u, 0) <= 0
  {
    forall other | Within(other, pool) && EvaluateFive(other).category == 2
      ensures TieDiff(EvaluateFive(other).tiebreak, u, 0) <= 0
    {
      WithinFacts(other, pool);
      PairUnbeaten(pool, a, other, EvaluateFive(other).tiebreak);
    }
  }

  /** The cards around the pair differ in rank: a second group would have made two pair. */
  lemma {:induction false} PairKickers(pool: seq<Card>, a: int)
    requires Pool(pool) && NoneAbove(2, pool) && TopExactly(pool, 2, a) && |Without(pool, OfRank(pool, a))| >= 3
    ensures var rest := Without(pool, OfRank(pool, a));
      && rest[0].rank != a && rest[1].rank != a && rest[2].rank != a
      && rest[0].rank > rest[1].rank > rest[2].rank
  {
    var group := OfRank(pool, a);
    var rest := Without(pool, group);
    OfRankFacts(pool, a);
    assert rest[0] in rest && rest[1] in rest && rest[2] in rest;
    assert !Possible(3, pool);
    assert Count(pool, rest[0].rank) <= 1 && Count(pool, rest[1].rank) <= 1;
    KickersDescend(pool, group, 0);
    KickersDescend(pool, group, 1);
  }

  lemma {:induction false} BestPair(pool: seq<Card>, cards: seq<Card>)
    requires Pool(pool) && NoneAbove(2, pool) && Found(2, pool, cards)
    ensures Solved(2, pool, cards)
  {
    var a := cards[0].rank;
    var rest := Without(pool, OfRank(pool, a));
    OfRankFacts(pool, a);
    GroupAndKickers(pool, OfRank(pool, a), 3);
    PairKickers(pool, a);
    EvaluatePair(cards, a, rest[0].rank, rest[1].rank, rest[2].rank);
    PairsUnbeaten(pool, a, [a, rest[0].rank, rest[1].rank, rest[2].rank]);
    BestByTies(2, pool, cards, [a, rest[0].rank, rest[1].rank, rest[2].rank]);
    SolvedByFive(2, pool, cards);
  }

  // ---- High card and flush ----

  /** Five cards in strictly descending order evaluate by their ranks and suits alone. */
  lemma {:induction false} EvaluateDescending(five: seq<Card>)
    requires ValidCards(five) && |five| == 5 && Descending(Ranks(five))
    ensures EvaluateFive(five) == Classify(Ranks(five), 1, 1, Ranks(five), IsFlush(five))
  {
    forall x ensures x in Ranks(five) <==> Count(five, x) > 0 { CountFive(five, x); }
    EvaluateSingles(five, Ranks(five));
  }

  lemma {:induction false} RanksUnbeaten(top: seq<Card>, from: seq<Card>, other: seq<Card>, t: seq<int>)
    requires Sorted(from) && |from| >= 5 && top == from[..5]
    requires forall c :: c in other ==> c in from
    requires |t| == 5 && Descending(t) && forall r :: r in t ==> Count(other, r) > 0
    ensures TieDiff(t, Ranks(top), 0) <= 0
  {
    var picks := PickRanks(other, t);
    TopDominates(picks, from);
    TieDiffDominated(t, Ranks(top), 0);
  }

  /** Without a pair the top cards of the pool are in strictly descending order. */
  lemma {:induction false} TopDescends(pool: seq<Card>, cards: seq<Card>)
    requires Pool(pool) && NoneAbove(1, pool) && |pool| >= 5 && cards == pool[..5]
    ensures Within(cards, pool) && ValidCards(cards) && Descending(Ranks(cards))
  {
    assert forall i :: 0 <= i < 5 ==> pool[i] in pool;
    forall i, j | 0 <= i < j < 5 ensures cards[i].rank > cards[j].rank {
      NoTrips(1, pool, cards[i].rank);
      assert !Possible(2, pool);
      CountWithin([cards[i], cards[j]], pool, cards[i].rank);
      CountCons(cards[i], [cards[j]], cards[i].rank);
      assert [cards[i]] + [cards[j]] == [cards[i], cards[j]];
      CountCons(cards[j], [], cards[i].rank);
    }
  }

  lemma {:induction false} HighCardsUnbeaten(pool: seq<Card>, u: seq<int>)
    requires Pool(pool) && |pool| >= 5 && u == Ranks(pool[..5])
    ensures forall other :: Within(other, pool) && EvaluateFive(other).category == 1 ==>
              TieDiff(EvaluateFive(other).tiebreak, u, 0) <= 0
  {
    forall other | Within(other, pool) && EvaluateFive(other).category == 1
      ensures TieDiff(EvaluateFive(other).tiebreak, u, 0) <= 0
    {
      WithinFacts(other, pool);
      RanksUnbeaten(pool[..5], pool, other, EvaluateFive(other).tiebreak);
    }
  }

  lemma {:induction false} BestHighCard(pool: seq<Card>, cards: seq<Card>)
    requires Pool(pool) && NoneAbove(1, pool) && Found(1, pool, cards)
    ensures Solved(1, pool, cards)
  {
    TopDescends(pool, cards);
    EvaluateDescending(cards);
    Bounded(1, pool, cards);
    HighCardsUnbeaten(pool, Ranks(cards));
    BestByTies(1, pool, cards, Ranks(cards));
    SolvedByFive(1, pool, cards);
  }

  lemma {:induction false} SuitFacts(pool: seq<Card>, s: char)
    requires Pool(pool)
    ensures var suited := OfSuit(pool, s);
      && ValidCards(suited) && Descending(Ranks(suited))
      && (forall c :: c in suited ==> c in pool && c.suit == s)
  {
    var suited := OfSuit(pool, s);
    FilterSorted(pool, (c: Card) => c.suit == s);
    FilterDistinct(pool, (c: Card) => c.suit == s);
    forall i, j | 0 <= i < j < |suited| ensures suited[i].rank > suited[j].rank {
      assert suited[i] in suited && suited[j] in suited;
    }
  }

  lemma {:induction false} FlushUnbeaten(pool: seq<Card>, s: char, other: seq<Card>, t: seq<int>)
    requires Pool(pool) && OneFlushSuit(pool) && |OfSuit(pool, s)| >= 5
    requires Within(other, pool) && Reads(other, Evaluated(6, t))
    ensures TieDiff(t, Ranks(OfSuit(pool, s)[..5]), 0) <= 0
  {
    FlushWithin(other, pool);
    SuitFacts(pool, s);
    FilterSorted(pool, (c: Card) => c.suit == s);
    RanksUnbeaten(OfSuit(pool, s)[..5], OfSuit(pool, s), other, t);
  }

  lemma {:induction false} FlushesUnbeaten(pool: seq<Card>, s: char, u: seq<int>)
    requires Pool(pool) && OneFlushSuit(pool) && |OfSuit(pool, s)| >= 5 && u == Ranks(OfSuit(pool, s)[..5])
    ensures forall other :: Within(other, pool) && EvaluateFive(other).category == 6 ==>
              TieDiff(EvaluateFive(other).tiebreak, u, 0) <= 0
  {
    forall other | Within(other, pool) && EvaluateFive(other).category == 6
      ensures TieDiff(EvaluateFive(other).tiebreak, u, 0) <= 0
    {
      WithinFacts(other, pool);
      FlushUnbeaten(pool, s, other, EvaluateFive(other).tiebreak);
    }
  }

  lemma {:induction false} FlushTop(pool: seq<Card>, s: char, cards: seq<Card>)
    requires Pool(pool) && |OfSuit(pool, s)| >= 5 && cards == OfSuit(pool, s)[..5]
    ensures ValidCards(cards) && Descending(Ranks(cards)) && IsFlush(cards) && Within(cards, pool)
  {
    SuitFacts(pool, s);
    var suited := OfSuit(pool, s);
    forall c | c in cards ensures c in suited {
      var i :| 0 <= i < 5 && cards[i] == c;
      assert suited[i] == c;
    }
    assert forall i :: 0 <= i < 5 ==> cards[i] in cards && Ranks(cards)[i] == Ranks(suited)[i];
  }

  lemma {:induction false} BestFlush(pool: seq<Card>, cards: seq<Card>)
    requires Pool(pool) && NoneAbove(6, pool) && Found(6, pool, cards) && OneFlushSuit(pool)
    ensures Solved(6, pool, cards)
  {
    var s := cards[0].suit;
    SuitFacts(pool, s);
    FlushTop(pool, s, cards);
    EvaluateDescending(cards);
    Bounded(6, pool, cards);
    FlushesUnbeaten(pool, s, Ranks(cards));
    BestByTies(6, pool, cards, Ranks(cards));
    SolvedByFive(6, pool, cards);
  }

  // ---- Straights ----

  lemma {:induction false} EvaluateRun(cards: seq<Card>)
    requires |cards| == 5 && Run(Ranks(cards)) && forall c :: c in cards ==> ValidCard(c)
    ensures Distinct(cards)
    ensures EvaluateFive(cards) == Evaluated(if IsFlush(cards) then 9 else 5, [cards[0].rank])
  {
    var r := Ranks(cards);
    assert forall i :: 0 <= i < 5 ==> cards[i].rank == r[i];
    var d := RunDescending(r);
    RunSorted(r);
    RunClass(r, IsFlush(cards));
    forall x ensures x in d <==> Count(cards, x) > 0 { CountFive(cards, x); }
    EvaluateSingles(cards, d);
  }

  lemma {:induction false} RunClass(r: seq<int>, flush: bool)
    requires |r| == 5 && Run(r)
    ensures var d := RunDescending(r); Classify(d, 1, 1, d, flush) == Evaluated(if flush then 9 else 5, [r[0]])
  {
  }

  /** A run's ranks from the top: the wheel's ace comes first. */
  function RunDescending(r: seq<int>): (d: seq<int>) {
    if r == [4, 3, 2, 1, 13] then [13, 4, 3, 2, 1] else r
  }

  lemma {:induction false} RunSorted(r: seq<int>)
    requires |r| == 5 && Run(r)
    ensures |RunDescending(r)| == 5 && Descending(RunDescending(r))
    ensures forall x :: x in RunDescending(r) <==> x == r[0] || x == r[1] || x == r[2] || x == r[3] || x == r[4]
  {
  }

  lemma {:induction false} TopStraightRuns(from: seq<Card>, cards: seq<Card>)
    requires TopStraight(from, cards) && forall c :: c in from ==> ValidCard(c)
    ensures Run(Ranks(cards)) && forall c :: c in cards ==> ValidCard(c)
  {
    assert cards[4] in cards && cards[4].rank == Ranks(cards)[4];
    assert Ranks(cards)[0] == cards[0].rank;
  }

  /** The straight taken from `from` is the highest one there. */
  lemma {:induction false} StraightUnbeaten(from: seq<Card>, cards: seq<Card>, other: seq<Card>, t: seq<int>)
    requires TopStraight(from, cards) && forall c :: c in from ==> ValidCard(c)
    requires |t| == 1 && RunTo(other, t[0]) && forall r :: HasRank(other, r) ==> HasRank(from, r)
    ensures TieDiff(t, [cards[0].rank], 0) <= 0
  {
    RunCarries(other, from, t[0]);
    TopStraightRuns(from, cards);
    assert cards[0].rank == Ranks(cards)[0] >= 4;
    assert t[0] <= cards[0].rank;
    TieDiffDominated(t, [cards[0].rank], 0);
  }

  lemma {:induction false} BestStraight(pool: seq<Card>, cards: seq<Card>)
    requires Pool(pool) && NoneAbove(5, pool) && Found(5, pool, cards)
    ensures Solved(5, pool, cards)
  {
    TopStraightRuns(pool, cards);
    EvaluateRun(cards);
    Bounded(5, pool, cards);
    forall other | Within(other, pool) && EvaluateFive(other).category == 5
      ensures TieDiff(EvaluateFive(other).tiebreak, [cards[0].rank], 0) <= 0
    {
      WithinFacts(other, pool);
      StraightUnbeaten(pool, cards, other, EvaluateFive(other).tiebreak);
    }
    BestByTies(5, pool, cards, [cards[0].rank]);
    SolvedByFive(5, pool, cards);
  }

  lemma {:induction false} BestStraightFlush(pool: seq<Card>, cards: seq<Card>)
    requires Pool(pool) && Found(9, pool, cards) && OneFlushSuit(pool)
    ensures Solved(9, pool, cards)
  {
    var suited := OfSuit(pool, cards[0].suit);
    SuitFacts(pool, cards[0].suit);
    TopStraightRuns(suited, cards);
    EvaluateRun(cards);
    forall i | 0 <= i < 5 ensures cards[i].suit == cards[0].suit {
      assert cards[i] in cards;
    }
    forall other | Within(other, pool) && EvaluateFive(other).category == 9
      ensures TieDiff(EvaluateFive(other).tiebreak, [cards[0].rank], 0) <= 0
    {
      WithinFacts(other, pool);
      FlushWithin(other, pool);
      StraightUnbeaten(suited, cards, other, EvaluateFive(other).tiebreak);
    }
    BestByTies(9, pool, cards, [cards[0].rank]);
    SolvedByFive(9, pool, cards);
  }
}
