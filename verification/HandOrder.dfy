/** The order behind the exhaustive evaluator, and what a five-card evaluation says about its cards. */
module HandOrder {
  import opened Sequences
  import opened Cards
  import opened BestHand

  // ---- Compare is a total preorder, so the running best is a maximum ----

  lemma {:induction false} TieDiffOpposite(a: seq<int>, b: seq<int>, i: nat)
    ensures TieDiff(a, b, i) == -TieDiff(b, a, i)
    decreases |a| + |b| - i
  {
    if i < |a| || i < |b| {
      TieDiffOpposite(a, b, i + 1);
    }
  }

  lemma {:induction false} TieDiffTransitive(a: seq<int>, b: seq<int>, c: seq<int>, i: nat)
    requires TieDiff(a, b, i) <= 0 && TieDiff(b, c, i) <= 0
    ensures TieDiff(a, c, i) <= 0
    decreases |a| + |b| + |c| - i
  {
    if i < |a| || i < |b| || i < |c| {
      if At(a, i) == At(b, i) == At(c, i) {
        TieDiffTransitive(a, b, c, i + 1);
      }
    }
  }

  lemma {:induction false} TieDiffZero(a: seq<int>, b: seq<int>, i: nat)
    requires |a| == |b| && TieDiff(a, b, i) == 0
    ensures forall k :: i <= k < |a| ==> a[k] == b[k]
    decreases |a| - i
  {
    if i < |a| {
      TieDiffZero(a, b, i + 1);
    }
  }

  /** Entry-wise domination decides the tiebreak. */
  lemma {:induction false} TieDiffDominated(a: seq<int>, b: seq<int>, i: nat)
    requires forall k :: i <= k < |a| || i <= k < |b| ==> At(a, k) <= At(b, k)
    ensures TieDiff(a, b, i) <= 0
    decreases |a| + |b| - i
  {
    if i < |a| || i < |b| {
      TieDiffDominated(a, b, i + 1);
    }
  }

  lemma {:induction false} CompareTransitive(a: Evaluated, b: Evaluated, c: Evaluated)
    requires Compare(a, b) <= 0 && Compare(b, c) <= 0
    ensures Compare(a, c) <= 0
  {
    if a.category == b.category == c.category {
      TieDiffTransitive(a.tiebreak, b.tiebreak, c.tiebreak, 0);
    }
  }

  lemma {:induction false} CompareOpposite(a: Evaluated, b: Evaluated)
    ensures Compare(a, b) == -Compare(b, a)
  {
    TieDiffOpposite(a.tiebreak, b.tiebreak, 0);
  }

  lemma {:induction false} BestOfIsMaximum(es: seq<Evaluated>)
    requires es != []
    ensures BestOf(es) in es
    ensures forall e :: e in es ==> Compare(e, BestOf(es)) <= 0
  {
    var n := |es| - 1;
    if n == 0 {
      TieDiffDominated(es[0].tiebreak, es[0].tiebreak, 0);
    } else {
      BestOfIsMaximum(es[..n]);
      var best := BestOf(es[..n]);
      CompareOpposite(es[n], best);
      TieDiffDominated(es[n].tiebreak, es[n].tiebreak, 0);
      forall e | e in es ensures Compare(e, BestOf(es)) <= 0 {
        if e in es[..n] && Compare(es[n], best) > 0 {
          CompareTransitive(e, best, es[n]);
        }
      }
    }
  }

  // ---- An evaluation depends on the cards, not on their order ----

  lemma {:induction false} SameCounts(a: seq<Card>, b: seq<Card>, r: int)
    requires Distinct(a) && Distinct(b) && forall c :: c in a <==> c in b
    ensures Count(a, r) == Count(b, r)
  {
    CountWithin(a, b, r);
    CountWithin(b, a, r);
  }

  lemma {:induction false} OrderedUnique(cards: seq<Card>, a: seq<int>, b: seq<int>)
    requires GroupOrdered(cards, a) && GroupOrdered(cards, b)
    requires forall x :: x in a <==> x in b
    ensures a == b
  {
    assert a != [] ==> a[0] in a;
    assert b != [] ==> b[0] in b;
    if a != [] {
      assert a[0] == b[0];
      forall x ensures x in a[1..] <==> x in b[1..] {
        if x in a[1..] { assert x in b && x != b[0]; }
        if x in b[1..] { assert x in a && x != a[0]; }
      }
      OrderedUnique(cards, a[1..], b[1..]);
      assert a == [a[0]] + a[1..] && b == [b[0]] + b[1..];
    }
  }

  /** The group list is the only one that lists exactly the ranks held, in group order. */
  lemma {:induction false} GroupRanksAre(cards: seq<Card>, groups: seq<int>)
    requires ValidCards(cards) && GroupOrdered(cards, groups)
    requires forall x :: x in groups <==> Count(cards, x) > 0
    ensures GroupRanks(cards) == groups
  {
    forall x ensures x in GroupRanks(cards) <==> x in groups {
      CountAtMostFour(cards, x);
    }
    OrderedUnique(cards, GroupRanks(cards), groups);
  }

  lemma {:induction false} GroupRanksMembers(cards: seq<Card>)
    requires ValidCards(cards)
    ensures forall x :: x in GroupRanks(cards) <==> Count(cards, x) > 0
  {
    forall x ensures x in GroupRanks(cards) <==> Count(cards, x) > 0 {
      CountAtMostFour(cards, x);
    }
  }

  lemma {:induction false} SameGroups(a: seq<Card>, b: seq<Card>)
    requires ValidCards(a) && ValidCards(b) && forall c :: c in a <==> c in b
    ensures GroupRanks(a) == GroupRanks(b) && forall r :: Count(a, r) == Count(b, r)
  {
    forall r ensures Count(a, r) == Count(b, r) {
      SameCounts(a, b, r);
    }
    GroupRanksMembers(b);
    GroupRanksAre(a, GroupRanks(b));
  }

  lemma {:induction false} SameEvaluation(a: seq<Card>, b: seq<Card>)
    requires ValidCards(a) && ValidCards(b) && forall c :: c in a <==> c in b
    ensures EvaluateFive(a) == EvaluateFive(b)
  {
    SameGroups(a, b);
    DescendingUnique(DistinctRanks(a, ACE), DistinctRanks(b, ACE));
    assert GroupSize(a, 0) == GroupSize(b, 0) && GroupSize(a, 1) == GroupSize(b, 1);
    assert IsFlush(a) == IsFlush(b) by {
      SameFlush(a, b);
      SameFlush(b, a);
    }
  }

  lemma {:induction false} SameFlush(a: seq<Card>, b: seq<Card>)
    requires forall c :: c in a <==> c in b
    ensures IsFlush(a) ==> IsFlush(b)
  {
    if IsFlush(a) {
      assert forall c :: c in a ==> c.suit == a[0].suit;
      assert forall i :: 0 <= i < |b| ==> b[i] in b && b[i] in a;
    }
  }

  // ---- Group sizes of five cards ----

  lemma {:induction false} SplitRank(cards: seq<Card>, g: int)
    ensures |cards| == Count(cards, g) + |Filter(cards, (c: Card) => c.rank != g)|
  {
    if cards != [] {
      SplitRank(cards[1..], g);
    }
  }

  lemma {:induction false} CountOthers(cards: seq<Card>, g: int, r: int)
    requires r != g
    ensures Count(Filter(cards, (c: Card) => c.rank != g), r) == Count(cards, r)
  {
    if cards != [] {
      CountOthers(cards[1..], g, r);
    }
  }

  function GroupTotal(cards: seq<Card>, groups: seq<int>): nat {
    if groups == [] then 0 else Count(cards, groups[0]) + GroupTotal(cards, groups[1..])
  }

  lemma {:induction false} GroupTotalSame(a: seq<Card>, b: seq<Card>, groups: seq<int>)
    requires forall r :: r in groups ==> Count(a, r) == Count(b, r)
    ensures GroupTotal(a, groups) == GroupTotal(b, groups)
  {
    if groups != [] {
      GroupTotalSame(a, b, groups[1..]);
    }
  }

  lemma {:induction false} GroupsCover(cards: seq<Card>, groups: seq<int>)
    requires Distinct(groups) && forall c :: c in cards ==> c.rank in groups
    ensures GroupTotal(cards, groups) == |cards|
    decreases |groups|
  {
    assert cards != [] ==> cards[0] in cards;
    if groups != [] {
      var g := groups[0];
      var others := Filter(cards, (c: Card) => c.rank != g);
      SplitRank(cards, g);
      GroupsCover(others, groups[1..]);
      forall r | r in groups[1..] ensures Count(others, r) == Count(cards, r) {
        CountOthers(cards, g, r);
      }
      GroupTotalSame(others, cards, groups[1..]);
    }
  }

  lemma {:induction false} CountPositive(cards: seq<Card>)
    ensures forall c :: c in cards ==> Count(cards, c.rank) > 0
  {
    forall c | c in cards ensures Count(cards, c.rank) > 0 {
      assert c in OfRank(cards, c.rank);
    }
  }
}
