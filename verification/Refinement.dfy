/** The greedy solver finds the best of all five-card hands: one category at a time, then together. */
module Refinement {
  import opened Sequences
  import opened Cards
  import opened BestHand
  import opened HandOrder
  import opened Greedy

  ghost predicate Within(five: seq<Card>, pool: seq<Card>) {
    |five| == 5 && Distinct(five) && forall c :: c in five ==> c in pool
  }

  /** At most one suit can make a flush; nine cards or fewer always satisfy this. */
  ghost predicate OneFlushSuit(pool: seq<Card>) {
    forall s, t :: |OfSuit(pool, s)| >= 5 && |OfSuit(pool, t)| >= 5 ==> s == t
  }

  /** The tiebreak that the first five ranks of a solved hand stand for. */
  function TieOf(k: int, r: seq<int>): seq<int>
    requires |r| == 5
  {
    match k
    case 9 => [r[0]]
    case 8 => [r[0], r[4]]
    case 7 => [r[0], r[3]]
    case 5 => [r[0]]
    case 4 => [r[0], r[3], r[4]]
    case 3 => [r[0], r[2], r[4]]
    case 2 => [r[0], r[2], r[3], r[4]]
    case _ => r
  }

  /** Five ranks in a row from the top, or the wheel. */
  predicate Run(r: seq<int>)
    requires |r| == 5
  {
    r == [4, 3, 2, 1, 13] || (r[0] >= 5 && r == [r[0], r[0] - 1, r[0] - 2, r[0] - 3, r[0] - 4])
  }

  /** The layout of the first five ranks of a solved hand of category `k`. */
  predicate Shaped(k: int, r: seq<int>) {
    && |r| == 5
    && match k
       case 9 => Run(r)
       case 8 => r[0] == r[1] == r[2] == r[3]
       case 7 => r[0] == r[1] == r[2] && r[3] == r[4]
       case 5 => Run(r)
       case 4 => r[0] == r[1] == r[2]
       case 3 => r[0] == r[1] && r[2] == r[3]
       case 2 => r[0] == r[1]
       case _ => 1 <= k <= 9
  }

  // ---- Reading an evaluation of five cards ----

  /** The sizes of the listed groups. */
  function Sizes(cards: seq<Card>, g: seq<int>): (n: seq<nat>)
    ensures |n| == |g| && forall i :: 0 <= i < |g| ==> n[i] == Count(cards, g[i])
  {
    seq(|g|, i requires 0 <= i < |g| => Count(cards, g[i]))
  }

  function Sum(n: seq<nat>): nat {
    if n == [] then 0 else n[0] + Sum(n[1..])
  }

  lemma {:induction false} SizesTotal(cards: seq<Card>, g: seq<int>)
    ensures Sum(Sizes(cards, g)) == GroupTotal(cards, g)
  {
    if g != [] {
      SizesTotal(cards, g[1..]);
      assert Sizes(cards, g)[1..] == Sizes(cards, g[1..]);
    }
  }

  /** The ways to split five cards into groups of at most four. */
  predicate FiveSizes(n: seq<nat>) {
    || (|n| == 2 && n[0] == 4 && n[1] == 1)
    || (|n| == 2 && n[0] == 3 && n[1] == 2)
    || (|n| == 3 && n[0] == 3 && n[1] == n[2] == 1)
    || (|n| == 3 && n[0] == n[1] == 2 && n[2] == 1)
    || (|n| == 4 && n[0] == 2 && n[1] == n[2] == n[3] == 1)
    || (|n| == 5 && n[0] == n[1] == n[2] == n[3] == n[4] == 1)
  }

  lemma {:induction false} SplitsOfFive(n: seq<nat>)
    requires Sum(n) == 5
    requires forall i :: 0 <= i < |n| ==> 1 <= n[i] <= 4
    requires forall i, j :: 0 <= i < j < |n| ==> n[i] >= n[j]
    ensures FiveSizes(n)
  {
    var rest := n;
    var total: nat := 0;
    while rest != [] && |n| - |rest| < 6
      invariant |rest| <= |n| && rest == n[|n| - |rest|..] && total + Sum(rest) == 5
      invariant total >= |n| - |rest|
      invariant |n| - |rest| == 0 ==> total == 0
      invariant |n| - |rest| == 1 ==> total == n[0]
      invariant |n| - |rest| == 2 ==> total == n[0] + n[1]
      invariant |n| - |rest| == 3 ==> total == n[0] + n[1] + n[2]
      invariant |n| - |rest| == 4 ==> total == n[0] + n[1] + n[2] + n[3]
      invariant |n| - |rest| == 5 ==> total == n[0] + n[1] + n[2] + n[3] + n[4]
    {
      total, rest := total + rest[0], rest[1..];
    }
  }

  lemma {:induction false} FiveShapeOf(cards: seq<Card>, g: seq<int>)
    requires ValidCards(cards) && |cards| == 5 && GroupOrdered(cards, g)
    requires forall x :: x in g <==> Count(cards, x) > 0
    ensures FiveSizes(Sizes(cards, g))
  {
    CountPositive(cards);
    GroupsCover(cards, g);
    SizesTotal(cards, g);
    forall i | 0 <= i < |g| ensures 1 <= Count(cards, g[i]) <= 4 {
      assert g[i] in g;
      CountAtMostFour(cards, g[i]);
    }
    SplitsOfFive(Sizes(cards, g));
  }

  // ---- Evaluating an explicit five ----

  function Bit(b: bool): nat { if b then 1 else 0 }

  lemma {:induction false} CountCons(c: Card, s: seq<Card>, r: int)
    ensures Count([c] + s, r) == Bit(c.rank == r) + Count(s, r)
  {
    assert ([c] + s)[1..] == s;
  }

  lemma {:induction false} CountFive(f: seq<Card>, r: int)
    requires |f| == 5
    ensures Count(f, r) == Bit(f[0].rank == r) + Bit(f[1].rank == r) + Bit(f[2].rank == r) + Bit(f[3].rank == r)
        + Bit(f[4].rank == r)
  {
    CountCons(f[4], [], r);
    CountCons(f[3], [f[4]], r);
    CountCons(f[2], [f[3], f[4]], r);
    CountCons(f[1], [f[2], f[3], f[4]], r);
    CountCons(f[0], [f[1], f[2], f[3], f[4]], r);
    assert [f[4]] + [] == [f[4]];
    assert [f[3]] + [f[4]] == [f[3], f[4]];
    assert [f[2]] + [f[3], f[4]] == [f[2], f[3], f[4]];
    assert [f[1]] + [f[2], f[3], f[4]] == [f[1], f[2], f[3], f[4]];
    assert [f[0]] + [f[1], f[2], f[3], f[4]] == f;
  }

  /** Cards of one suit have different ranks. */
  lemma {:induction false} FlushSingles(f: seq<Card>, r: int)
    requires ValidCards(f) && IsFlush(f)
    ensures Count(f, r) <= 1
  {
    var g := OfRank(f, r);
    FilterDistinct(f, (c: Card) => c.rank == r);
    forall c | c in g ensures c == g[0] {
      assert g[0] in g;
    }
    DistinctWithin(g, if g == [] then [] else [g[0]]);
  }

  /** With a group of two or more, only the group sizes decide. */
  lemma {:induction false} EvaluateGrouped(f: seq<Card>, g: seq<int>)
    requires ValidCards(f) && |f| == 5
    requires GroupOrdered(f, g) && (forall x :: x in g <==> Count(f, x) > 0)
    requires 2 <= |g| < 5 && Count(f, g[0]) >= 2
    ensures EvaluateFive(f) == Classify(g, Count(f, g[0]), Count(f, g[1]), [], false)
  {
    var d := DistinctRanks(f, ACE);
    assert !IsFlush(f) by {
      if IsFlush(f) { FlushSingles(f, g[0]); }
    }
    RanksAreGroups(f, d, g);
    GroupRanksAre(f, g);
    CountAtMostFour(f, g[0]);
    NoStraight(g, Count(f, g[0]), Count(f, g[1]), d);
  }

  lemma {:induction false} NoStraight(g: seq<int>, n0: nat, n1: nat, d: seq<int>)
    requires |d| != 5 && 2 <= n0 <= 4
    ensures Classify(g, n0, n1, d, false) == Classify(g, n0, n1, [], false)
  {
  }

  lemma {:induction false} RanksAreGroups(f: seq<Card>, d: seq<int>, g: seq<int>)
    requires ValidCards(f) && d == DistinctRanks(f, ACE)
    requires GroupOrdered(f, g) && forall x :: x in g <==> Count(f, x) > 0
    ensures |d| == |g|
    ensures (forall r :: r in g ==> Count(f, r) <= 1) ==> d == g
  {
    forall x ensures x in d <==> x in g {
      CountAtMostFour(f, x);
    }
    DistinctWithin(d, g);
    DistinctWithin(g, d);
    if forall r :: r in g ==> Count(f, r) <= 1 {
      forall i, j | 0 <= i < j < |g| ensures g[i] > g[j] {
        assert g[i] in g && g[j] in g && Before(f, g[i], g[j]);
      }
      DescendingUnique(d, g);
    }
  }

  /** Without a repeated rank, the sorted ranks and the suits decide. */
  lemma {:induction false} EvaluateSingles(f: seq<Card>, d: seq<int>)
    requires ValidCards(f) && |f| == 5
    requires Descending(d) && |d| == 5 && (forall x :: x in d <==> Count(f, x) > 0)
    ensures EvaluateFive(f) == Classify(d, 1, 1, d, IsFlush(f))
  {
    var g := GroupRanks(f);
    GroupRanksMembers(f);
    forall x ensures x in d <==> x in DistinctRanks(f, ACE) {
      CountAtMostFour(f, x);
    }
    DescendingUnique(d, DistinctRanks(f, ACE));
    SinglesOf(f, d, g);
  }

  lemma {:induction false} SinglesOf(f: seq<Card>, d: seq<int>, g: seq<int>)
    requires ValidCards(f) && |f| == 5 && d == DistinctRanks(f, ACE) && |d| == 5
    requires GroupOrdered(f, g) && forall x :: x in g <==> Count(f, x) > 0
    ensures d == g && Count(f, g[0]) == Count(f, g[1]) == 1
  {
    RanksAreGroups(f, d, g);
    FiveShapeOf(f, g);
    forall r | r in g ensures Count(f, r) <= 1 {
      var i :| 0 <= i < |g| && g[i] == r;
      assert Sizes(f, g)[i] == 1;
    }
  }

  lemma {:induction false} EvaluateQuads(f: seq<Card>, a: int, m: int)
    requires ValidCards(f) && Ranks(f) == [a, a, a, a, m] && a != m
    ensures EvaluateFive(f) == Evaluated(8, [a, m])
  {
    forall r { CountFive(f, r); }
    EvaluateGrouped(f, [a, m]);
  }

  lemma {:induction false} EvaluateFullHouse(f: seq<Card>, a: int, b: int)
    requires ValidCards(f) && Ranks(f) == [a, a, a, b, b] && a != b
    ensures EvaluateFive(f) == Evaluated(7, [a, b])
  {
    forall r { CountFive(f, r); }
    EvaluateGrouped(f, [a, b]);
  }

  lemma {:induction false} EvaluateTrips(f: seq<Card>, a: int, m: int, n: int)
    requires ValidCards(f) && Ranks(f) == [a, a, a, m, n] && a != m && a != n && m > n
    ensures EvaluateFive(f) == Evaluated(4, [a, m, n])
  {
    forall r { CountFive(f, r); }
    EvaluateGrouped(f, [a, m, n]);
  }

  lemma {:induction false} EvaluateTwoPair(f: seq<Card>, a: int, b: int, m: int)
    requires ValidCards(f) && Ranks(f) == [a, a, b, b, m] && a > b && a != m && b != m
    ensures EvaluateFive(f) == Evaluated(3, [a, b, m])
  {
    forall r { CountFive(f, r); }
    EvaluateGrouped(f, [a, b, m]);
  }

  lemma {:induction false} EvaluatePair(f: seq<Card>, a: int, m: int, n: int, o: int)
    requires ValidCards(f) && Ranks(f) == [a, a, m, n, o] && a != m && a != n && a != o && m > n > o
    ensures EvaluateFive(f) == Evaluated(2, [a, m, n, o])
  {
    forall r { CountFive(f, r); }
    EvaluateGrouped(f, [a, m, n, o]);
  }

  // ---- What each category says about a five-card hand ----

  /** A straight ending at `h`; the wheel ends at its five, which has rank 4. */
  predicate RunTo(cards: seq<Card>, h: int) {
    (h >= 5 && StraightFrom(cards, h)) || (h == 4 && Wheel(cards))
  }

  /** The facts behind a category and its tiebreak. */
  ghost predicate Reads(five: seq<Card>, e: Evaluated) {
    var t := e.tiebreak;
    match e.category
    case 9 => IsFlush(five) && |t| == 1 && RunTo(five, t[0])
    case 8 => |t| == 2 && Count(five, t[0]) == 4 && Count(five, t[1]) == 1
    case 7 => |t| == 2 && Count(five, t[0]) == 3 && Count(five, t[1]) == 2
    case 6 => IsFlush(five) && |t| == 5 && Descending(t) && forall r :: r in t ==> Count(five, r) > 0
    case 5 => |t| == 1 && RunTo(five, t[0])
    case 4 => |t| == 3 && Count(five, t[0]) == 3 && Count(five, t[1]) == Count(five, t[2]) == 1 && t[1] > t[2]
    case 3 => |t| == 3 && Count(five, t[0]) == Count(five, t[1]) == 2 && Count(five, t[2]) == 1 && t[0] > t[1]
    case 2 => |t| == 4 && Count(five, t[0]) == 2 && Count(five, t[1]) == Count(five, t[2]) == Count(five, t[3]) == 1
              && t[1] > t[2] > t[3]
    case 1 => |t| == 5 && Descending(t) && forall r :: r in t ==> Count(five, r) > 0
    case _ => false
  }

  lemma {:induction false} HasRankCount(cards: seq<Card>, r: int)
    ensures HasRank(cards, r) <==> Count(cards, r) > 0
  {
    var g := OfRank(cards, r);
    if HasRank(cards, r) {
      var i :| 0 <= i < |cards| && cards[i].rank == r;
      assert cards[i] in g;
    }
    if |g| > 0 {
      assert g[0] in g && g[0] in cards;
      var i :| 0 <= i < |cards| && cards[i] == g[0];
    }
  }

  lemma {:induction false} StraightHighMeans(five: seq<Card>, d: seq<int>)
    requires Descending(d) && forall r :: r in d ==> Count(five, r) > 0 && r >= 1
    requires StraightHigh(d) != 0
    ensures RunTo(five, StraightHigh(d))
  {
    forall r | r in d ensures HasRank(five, r) {
      HasRankCount(five, r);
    }
    assert d[0] in d && d[1] in d && d[2] in d && d[3] in d && d[4] in d;
    assert d[0] > d[1] > d[2] > d[3] > d[4];
  }

  /** Five cards are a straight ending at `h` exactly when their ranks, highest first, are found to be one. */
  lemma {:induction false} StraightHighExactly(five: seq<Card>, h: int)
    requires ValidCards(five) && |five| == 5
    ensures RunTo(five, h) <==> h != 0 && StraightHigh(DistinctRanks(five, ACE)) == h
  {
    if StraightHigh(DistinctRanks(five, ACE)) != 0 {
      StraightHighMeans(five, DistinctRanks(five, ACE));
    }
    if RunTo(five, h) {
      RunIsFound(five, h);
    }
  }

  lemma {:induction false} RunIsFound(five: seq<Card>, h: int)
    requires ValidCards(five) && |five| == 5 && RunTo(five, h)
    ensures h != 0 && StraightHigh(DistinctRanks(five, ACE)) == h
  {
    var want := if h >= 5 then [h, h - 1, h - 2, h - 3, h - 4] else [13, 4, 3, 2, 1];
    forall r | r in want ensures Count(five, r) > 0 {
      assert HasRank(five, r);
      HasRankCount(five, r);
    }
    OnlyTheseRanks(five, want);
  }

  /** Five cards with five given ranks have no others. */
  lemma {:induction false} OnlyTheseRanks(five: seq<Card>, want: seq<int>)
    requires ValidCards(five) && |five| == 5
    requires Descending(want) && |want| == 5 && forall r :: r in want ==> Count(five, r) > 0
    ensures DistinctRanks(five, ACE) == want
  {
    var g, d := GroupRanks(five), DistinctRanks(five, ACE);
    GroupRanksMembers(five);
    RanksAreGroups(five, d, g);
    FiveShapeOf(five, g);
    forall r | r in want ensures r in d {
      CountAtMostFour(five, r);
    }
    forall r | r in d ensures r in want {
      if r !in want {
        DistinctCons(r, want);
        DistinctWithin([r] + want, d);
      }
    }
    DescendingUnique(d, want);
  }

  lemma {:induction false} Reading(five: seq<Card>)
    requires ValidCards(five) && |five| == 5
    ensures Reads(five, EvaluateFive(five))
  {
    var g, d := GroupRanks(five), DistinctRanks(five, ACE);
    GroupRanksMembers(five);
    ReadingOf(five, g, d);
  }

  lemma {:induction false} ReadingOf(five: seq<Card>, g: seq<int>, d: seq<int>)
    requires ValidCards(five) && |five| == 5 && d == DistinctRanks(five, ACE)
    requires GroupOrdered(five, g) && forall x :: x in g <==> Count(five, x) > 0
    ensures var n := Sizes(five, g);
      |n| >= 2 && Reads(five, Classify(g, n[0], n[1], d, IsFlush(five)))
  {
    var n := Sizes(five, g);
    FiveShapeOf(five, g);
    RanksAreGroups(five, d, g);
    if StraightHigh(d) != 0 {
      StraightHighMeans(five, d);
    }
    if IsFlush(five) {
      FlushSingles(five, g[0]);
    }
    if n[0] == 1 {
      forall r | r in g ensures Count(five, r) <= 1 {
        var i :| 0 <= i < |g| && g[i] == r;
        assert n[i] == 1;
      }
    }
    ReadingCases(five, g, d, n);
  }

  lemma {:induction false} ReadingCases(five: seq<Card>, g: seq<int>, d: seq<int>, n: seq<nat>)
    requires FiveSizes(n) && |g| == |n| && GroupOrdered(five, g)
    requires forall i :: 0 <= i < |g| ==> Count(five, g[i]) == n[i]
    requires |d| == |g| && (n[0] == 1 ==> d == g)
    requires StraightHigh(d) != 0 ==> RunTo(five, StraightHigh(d))
    requires IsFlush(five) ==> n[0] == 1
    ensures Reads(five, Classify(g, n[0], n[1], d, IsFlush(five)))
  {
    assert forall i, j :: 0 <= i < j < |g| ==> Before(five, g[i], g[j]);
    var e := Classify(g, n[0], n[1], d, IsFlush(five));
    if n[0] == 1 {
      assert Descending(g);
      assert forall r :: r in g ==> Count(five, r) > 0;
      assert |e.tiebreak| == 1 || e.tiebreak == g;
    } else {
      assert StraightHigh(d) == 0 && e.tiebreak == g;
    }
  }
}
