/** The greedy solver refines the exhaustive evaluator, in value and in comparison. */
module SolverTheorem {
  import opened Sequences
  import opened Cards
  import opened BestHand
  import opened HandOrder
  import opened Greedy
  import opened Refinement
  import opened CategoryProofs

  /** The exhaustive evaluator's verdict on a list of cards. */
  function BestValue(cards: seq<Card>): Evaluated
    requires Combinations(cards, 5) != []
  {
    BestOf(EvaluateAll(Combinations(cards, 5)))
  }

  /** The server's comparison: 1 when the first hand loses, -1 when it wins. */
  function CompareFrom(h: seq<Card>, o: seq<Card>, i: nat): int
    decreases 5 - i
  {
    if i >= 5 || i >= |h| || i >= |o| then 0
    else if h[i].rank < o[i].rank then 1
    else if h[i].rank > o[i].rank then -1
    else CompareFrom(h, o, i + 1)
  }

  function CompareHands(hRank: int, h: seq<Card>, oRank: int, o: seq<Card>): int {
    if hRank < oRank then 1 else if hRank > oRank then -1 else CompareFrom(h, o, 0)
  }

  // ---- The first successful pass returns the best hand ----

  lemma {:induction false} FoundIsBest(k: int, pool: seq<Card>, cards: seq<Card>)
    requires 1 <= k <= 9 && Pool(pool) && OneFlushSuit(pool)
    requires NoneAbove(k, pool) && Found(k, pool, cards)
    ensures Solved(k, pool, cards)
  {
    match k
    case 9 => BestStraightFlush(pool, cards);
    case 8 => BestQuads(pool, cards);
    case 7 => BestFullHouse(pool, cards);
    case 6 => BestFlush(pool, cards);
    case 5 => BestStraight(pool, cards);
    case 4 => BestTrips(pool, cards);
    case 3 => BestTwoPair(pool, cards);
    case 2 => BestPair(pool, cards);
    case 1 => BestHighCard(pool, cards);
  }

  lemma {:induction false} CombinationsExist(cards: seq<Card>)
    requires Distinct(cards) && |cards| >= 5
    ensures Combinations(cards, 5) != []
  {
    var f := CombinationsComplete(cards, cards[..5]);
  }

  /** Equal evaluations in the client's order are the same evaluation. */
  lemma {:induction false} EqualReadings(a: seq<Card>, b: seq<Card>, e: Evaluated, f: Evaluated)
    requires Reads(a, e) && Reads(b, f) && Compare(e, f) == 0
    ensures e == f
  {
    assert |e.tiebreak| == |f.tiebreak|;
    TieDiffZero(e.tiebreak, f.tiebreak, 0);
    assert e.tiebreak == f.tiebreak;
  }

  lemma {:induction false} Attained(cards: seq<Card>, five: seq<Card>)
    requires ValidCards(cards) && Within(five, cards)
    ensures EvaluateFive(five) in EvaluateAll(Combinations(cards, 5))
  {
    var fives := Combinations(cards, 5);
    var f := CombinationsComplete(cards, five);
    CombinationsSound(cards, 5, f);
    SameEvaluation(f, five);
    var j :| 0 <= j < |fives| && fives[j] == f;
    assert EvaluateAll(fives)[j] == EvaluateFive(five);
  }

  lemma {:induction false} Selected(cards: seq<Card>, e: Evaluated) returns (five: seq<Card>)
    requires ValidCards(cards) && e in EvaluateAll(Combinations(cards, 5))
    ensures Within(five, cards) && EvaluateFive(five) == e
  {
    var fives := Combinations(cards, 5);
    var j :| 0 <= j < |fives| && EvaluateAll(fives)[j] == e;
    five := fives[j];
    CombinationsSound(cards, 5, five);
  }

  /** A selection no other beats has the value the client's exhaustive scan arrives at. */
  lemma {:induction false} BestIsExhaustive(cards: seq<Card>, pool: seq<Card>, five: seq<Card>, v: Evaluated)
    requires ValidCards(cards) && Pool(pool) && Best(pool, five, v)
    requires |cards| >= 5 && forall c :: c in cards <==> c in pool
    ensures Combinations(cards, 5) != [] && BestValue(cards) == v
  {
    CombinationsExist(cards);
    Attained(cards, five);
    BestOfIsMaximum(EvaluateAll(Combinations(cards, 5)));
    var b := BestValue(cards);
    var top := Selected(cards, b);
    CompareOpposite(v, b);
    Reading(five);
    Reading(top);
    EqualReadings(top, five, b, v);
  }

  // ---- When the hypothesis on flush suits holds ----

  lemma {:induction false} SuitsWithin(a: seq<Card>, b: seq<Card>, s: char)
    requires Distinct(a) && forall c :: c in a ==> c in b
    ensures |OfSuit(a, s)| <= |OfSuit(b, s)|
  {
    FilterDistinct(a, (c: Card) => c.suit == s);
    DistinctWithin(OfSuit(a, s), OfSuit(b, s));
  }

  lemma {:induction false} OneFlushSuitCarries(cards: seq<Card>, pool: seq<Card>)
    requires Distinct(cards) && Distinct(pool) && OneFlushSuit(cards) && forall c :: c in cards <==> c in pool
    ensures OneFlushSuit(pool)
  {
    forall s { SuitsWithin(pool, cards, s); }
  }

  /** Nine cards cannot hold two flushes, so every showdown hand qualifies. */
  lemma {:induction false} SmallPools(cards: seq<Card>)
    requires Distinct(cards) && |cards| <= 9
    ensures OneFlushSuit(cards)
  {
    forall s, t | |OfSuit(cards, s)| >= 5 && |OfSuit(cards, t)| >= 5 ensures s == t {
      var a, b := OfSuit(cards, s), OfSuit(cards, t);
      FilterDistinct(cards, (c: Card) => c.suit == s);
      FilterDistinct(cards, (c: Card) => c.suit == t);
      if s != t {
        assert forall c :: c in a ==> c.suit == s;
        assert forall c :: c in b ==> c.suit == t;
        DistinctAppend(a, b);
        DistinctWithin(a + b, cards);
      }
    }
  }

  // ---- The two comparisons agree ----

  lemma {:induction false} CompareUnrolled(h: seq<Card>, o: seq<Card>)
    requires |h| >= 5 && |o| >= 5
    ensures CompareFrom(h, o, 0) ==
      if h[0].rank != o[0].rank then (if h[0].rank < o[0].rank then 1 else -1)
      else if h[1].rank != o[1].rank then (if h[1].rank < o[1].rank then 1 else -1)
      else if h[2].rank != o[2].rank then (if h[2].rank < o[2].rank then 1 else -1)
      else if h[3].rank != o[3].rank then (if h[3].rank < o[3].rank then 1 else -1)
      else if h[4].rank != o[4].rank then (if h[4].rank < o[4].rank then 1 else -1)
      else 0
  {
    assert CompareFrom(h, o, 5) == 0;
    assert h[4].rank == o[4].rank ==> CompareFrom(h, o, 4) == CompareFrom(h, o, 5);
    assert h[3].rank == o[3].rank ==> CompareFrom(h, o, 3) == CompareFrom(h, o, 4);
    assert h[2].rank == o[2].rank ==> CompareFrom(h, o, 2) == CompareFrom(h, o, 3);
    assert h[1].rank == o[1].rank ==> CompareFrom(h, o, 1) == CompareFrom(h, o, 2);
  }

  lemma {:induction false} TieUnrolled(t: seq<int>, u: seq<int>)
    requires |t| == |u| <= 5
    ensures TieDiff(t, u, 0) ==
      if At(t, 0) != At(u, 0) then At(t, 0) - At(u, 0)
      else if At(t, 1) != At(u, 1) then At(t, 1) - At(u, 1)
      else if At(t, 2) != At(u, 2) then At(t, 2) - At(u, 2)
      else if At(t, 3) != At(u, 3) then At(t, 3) - At(u, 3)
      else At(t, 4) - At(u, 4)
  {
    assert TieDiff(t, u, 5) == 0;
    assert |t| > 4 && t[4] == u[4] ==> TieDiff(t, u, 4) == TieDiff(t, u, 5);
    assert |t| > 3 && t[3] == u[3] ==> TieDiff(t, u, 3) == TieDiff(t, u, 4);
    assert |t| > 2 && t[2] == u[2] ==> TieDiff(t, u, 2) == TieDiff(t, u, 3);
    assert |t| > 1 && t[1] == u[1] ==> TieDiff(t, u, 1) == TieDiff(t, u, 2);
  }

  /** Two solved hands compare on the server exactly as their values compare in the client. */
  lemma {:induction false} ComparisonsAgree(j: int, h: seq<Card>, k: int, o: seq<Card>)
    requires |h| >= 5 && |o| >= 5 && Shaped(j, Ranks(h[..5])) && Shaped(k, Ranks(o[..5]))
    ensures CompareHands(j, h, k, o) > 0 <==> Compare(ValueOf(j, h[..5]), ValueOf(k, o[..5])) < 0
    ensures CompareHands(j, h, k, o) < 0 <==> Compare(ValueOf(j, h[..5]), ValueOf(k, o[..5])) > 0
  {
    if j == k {
      var r, q := Ranks(h[..5]), Ranks(o[..5]);
      assert forall i :: 0 <= i < 5 ==> h[i].rank == r[i] && o[i].rank == q[i];
      CompareUnrolled(h, o);
      TieUnrolled(TieOf(k, r), TieOf(k, q));
    }
  }

  /** More cards never make the best hand worse. */
  lemma {:induction false} MoreCardsNeverHurt(few: seq<Card>, many: seq<Card>)
    requires ValidCards(few) && ValidCards(many) && |few| >= 5 && forall c :: c in few ==> c in many
    ensures Combinations(few, 5) != [] && Combinations(many, 5) != []
    ensures Compare(BestValue(few), BestValue(many)) <= 0
  {
    DistinctWithin(few, many);
    CombinationsExist(few);
    CombinationsExist(many);
    BestOfIsMaximum(EvaluateAll(Combinations(few, 5)));
    BestOfIsMaximum(EvaluateAll(Combinations(many, 5)));
    var five := Selected(few, BestValue(few));
    Attained(many, five);
  }

  // ---- The server's comparison is a total preorder on hands of five cards or more ----

  lemma {:induction false} CompareFromOpposite(h: seq<Card>, o: seq<Card>, i: nat)
    ensures CompareFrom(h, o, i) == -CompareFrom(o, h, i)
    decreases 5 - i
  {
    if i < 5 && i < |h| && i < |o| {
      CompareFromOpposite(h, o, i + 1);
    }
  }

  lemma {:induction false} CompareFromTransitive(a: seq<Card>, b: seq<Card>, c: seq<Card>, i: nat)
    requires |a| >= 5 && |b| >= 5 && |c| >= 5
    requires CompareFrom(a, b, i) <= 0 && CompareFrom(b, c, i) <= 0
    ensures CompareFrom(a, c, i) <= 0
    decreases 5 - i
  {
    if i < 5 && a[i].rank == b[i].rank == c[i].rank {
      CompareFromTransitive(a, b, c, i + 1);
    }
  }

  lemma {:induction false} CompareHandsOpposite(j: int, h: seq<Card>, k: int, o: seq<Card>)
    ensures CompareHands(j, h, k, o) == -CompareHands(k, o, j, h)
  {
    CompareFromOpposite(h, o, 0);
  }

  lemma {:induction false} CompareHandsTransitive(i: int, a: seq<Card>, j: int, b: seq<Card>, k: int, c: seq<Card>)
    requires |a| >= 5 && |b| >= 5 && |c| >= 5
    requires CompareHands(i, a, j, b) <= 0 && CompareHands(j, b, k, c) <= 0
    ensures CompareHands(i, a, k, c) <= 0
  {
    if i == j == k {
      CompareFromTransitive(a, b, c, 0);
    }
  }

  /** The cards any solvable pool may hold: five or more of the deck, at most one suit good for a flush. */
  ghost predicate Solvable(cards: seq<Card>) {
    ValidCards(cards) && |cards| >= 5 && OneFlushSuit(cards)
  }

  /** `found`, reported with category `k`, carries the value of the exhaustive evaluator. */
  ghost predicate Decides(k: int, found: seq<Card>, cards: seq<Card>) {
    && |found| >= 5 && Shaped(k, Ranks(found[..5]))
    && Combinations(cards, 5) != []
    && ValueOf(k, found[..5]) == BestValue(cards)
  }

  lemma {:induction false} SolvableSorted(cards: seq<Card>)
    requires Solvable(cards)
    ensures Pool(SortCards(cards)) && OneFlushSuit(SortCards(cards)) && forall c :: c in cards <==>
      c in SortCards(cards)
  {
    SortKeeps(cards);
    OneFlushSuitCarries(cards, SortCards(cards));
  }

  /** The first category pass to succeed decides the hand as the exhaustive evaluator does. */
  lemma {:induction false} FirstFoundDecides(cards: seq<Card>, k: int, found: seq<Card>)
    requires 1 <= k <= 9 && Solvable(cards)
    requires NoneAbove(k, SortCards(cards)) && Found(k, SortCards(cards), found)
    ensures Decides(k, found, cards)
  {
    SolvableSorted(cards);
    FoundIsBest(k, SortCards(cards), found);
    BestIsExhaustive(cards, SortCards(cards), found[..5], ValueOf(k, found[..5]));
  }

  /** Solved hands compare as the exhaustive values of the cards they were solved from. */
  lemma {:induction false} DecidedComparison(j: int, h: seq<Card>, hCards: seq<Card>, k: int, o: seq<Card>,
      oCards: seq<Card>)
    requires Decides(j, h, hCards) && Decides(k, o, oCards)
    ensures CompareHands(j, h, k, o) > 0 <==> Compare(BestValue(hCards), BestValue(oCards)) < 0
    ensures CompareHands(j, h, k, o) < 0 <==> Compare(BestValue(hCards), BestValue(oCards)) > 0
  {
    ComparisonsAgree(j, h, k, o);
  }

  /** A hand solved from more cards never loses to one solved from some of them. */
  lemma {:induction false} SolvedNeverWorse(j: int, h: seq<Card>, few: seq<Card>, k: int, o: seq<Card>, many: seq<Card>)
    requires ValidCards(few) && ValidCards(many) && |few| >= 5 && forall c :: c in few ==> c in many
    requires Decides(j, h, few) && Decides(k, o, many)
    ensures CompareHands(j, h, k, o) >= 0
  {
    MoreCardsNeverHurt(few, many);
    DecidedComparison(j, h, few, k, o, many);
  }
}
