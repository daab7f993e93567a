/** The server's solver: one Hand object per category, filled in by loops over its index of the cards. */
module HandSolver {
  import opened Sequences
  import opened Cards
  import opened Greedy
  import opened CategoryProofs
  import opened SolverTheorem

  const CARDS_IN_HAND := 5
  const SF_QUALIFY := 5

  // Codes the parser does not recognise get rank -1 and would act as wild cards; an empty code is the zero card.
  predicate Recognised(c: Card) {
    c == Card('\0', '\0', 0) || (0 <= c.rank <= ACE && c.value == RANK_ORDER[c.rank])
  }

  // ---- Small facts about filters that the loops build up card by card ----

  lemma {:induction false} FilterSnoc(cs: seq<Card>, c: Card, p: Card -> bool)
    ensures Filter(cs + [c], p) == Filter(cs, p) + if p(c) then [c] else []
  {
    if cs == [] {
      assert cs + [c] == [c];
    } else {
      FilterSnoc(cs[1..], c, p);
      assert (cs + [c])[1..] == cs[1..] + [c];
    }
  }

  lemma {:induction false} RankSnoc(cs: seq<Card>, c: Card, r: int)
    ensures OfRank(cs + [c], r) == OfRank(cs, r) + if c.rank == r then [c] else []
  {
    FilterSnoc(cs, c, (x: Card) => x.rank == r);
  }

  lemma {:induction false} SuitSnoc(cs: seq<Card>, c: Card, s: char)
    ensures OfSuit(cs + [c], s) == OfSuit(cs, s) + if c.suit == s then [c] else []
  {
    FilterSnoc(cs, c, (x: Card) => x.suit == s);
  }

  lemma {:induction false} WithoutSnoc(cs: seq<Card>, c: Card, used: seq<Card>)
    ensures Without(cs + [c], used) == Without(cs, used) + if c !in used then [c] else []
  {
    FilterSnoc(cs, c, (x: Card) => x !in used);
  }

  lemma {:induction false} WithoutSorted(cs: seq<Card>, used: seq<Card>)
    requires Sorted(cs)
    ensures SortCards(Without(cs, used)) == Without(cs, used)
  {
    FilterSorted(cs, (x: Card) => x !in used);
    SortedIsFixed(Without(cs, used));
  }

  function InsertRank(r: int, s: seq<int>): (t: seq<int>)
    ensures forall x :: x in t <==> x == r || x in s
  {
    if s == [] || r >= s[0] then [r] + s else [s[0]] + InsertRank(r, s[1..])
  }

  /** The ranks in descending order. */
  function SortRanks(s: seq<int>): (t: seq<int>)
    ensures forall x :: x in t <==> x in s
  {
    if s == [] then [] else InsertRank(s[0], SortRanks(s[1..]))
  }

  lemma {:induction false} InsertRankDescends(r: int, s: seq<int>)
    requires Descending(s) && r !in s
    ensures Descending(InsertRank(r, s))
  {
    if s != [] && r < s[0] {
      InsertRankDescends(r, s[1..]);
      var t := InsertRank(r, s[1..]);
      forall i | 0 <= i < |t| ensures t[i] < s[0] {
        assert t[i] in t;
      }
    }
  }

  lemma {:induction false} SortRanksDescends(s: seq<int>)
    requires Distinct(s)
    ensures Descending(SortRanks(s))
  {
    if s != [] {
      SortRanksDescends(s[1..]);
      InsertRankDescends(s[0], SortRanks(s[1..]));
    }
  }

  ghost predicate BySuit(cs: seq<Card>, suits: map<char, seq<Card>>) {
    && (forall s :: s in suits <==> OfSuit(cs, s) != [])
    && (forall s :: s in suits ==> suits[s] == OfSuit(cs, s))
  }

  ghost predicate ByRank(cs: seq<Card>, values: map<int, seq<Card>>) {
    && (forall r :: r in values <==> OfRank(cs, r) != [])
    && (forall r :: r in values ==> values[r] == OfRank(cs, r))
  }

  lemma {:induction false} SuitStep(cs: seq<Card>, c: Card, suits: map<char, seq<Card>>)
    requires BySuit(cs, suits)
    ensures BySuit(cs + [c], suits[c.suit := (if c.suit in suits then suits[c.suit] else []) + [c]])
  {
    forall s ensures OfSuit(cs + [c], s) == OfSuit(cs, s) + if c.suit == s then [c] else [] {
      SuitSnoc(cs, c, s);
    }
  }

  lemma {:induction false} RankStep(cs: seq<Card>, c: Card, values: map<int, seq<Card>>)
    requires ByRank(cs, values)
    ensures ByRank(cs + [c], values[c.rank := (if c.rank in values then values[c.rank] else []) + [c]])
  {
    forall r ensures OfRank(cs + [c], r) == OfRank(cs, r) + if c.rank == r then [c] else [] {
      RankSnoc(cs, c, r);
    }
  }

  method IndexCards(pool: seq<Card>) returns (suits: map<char, seq<Card>>, values: map<int, seq<Card>>)
    ensures BySuit(pool, suits) && ByRank(pool, values)
  {
    suits, values := map[], map[];
    var i := 0;
    while i < |pool|
      invariant 0 <= i <= |pool|
      invariant BySuit(pool[..i], suits) && ByRank(pool[..i], values)
    {
      var c := pool[i];
      assert pool[..i + 1] == pool[..i] + [c];
      SuitStep(pool[..i], c, suits);
      RankStep(pool[..i], c, values);
      suits := suits[c.suit := (if c.suit in suits then suits[c.suit] else []) + [c]];
      values := values[c.rank := (if c.rank in values then values[c.rank] else []) + [c]];
      i := i + 1;
    }
    assert pool[..i] == pool;
  }

  /** The suit and value keys of the cards already in a hand. */
  method UsedKeys(cards: seq<Card>) returns (used: set<(char, char)>)
    ensures forall k :: k in used <==> exists j :: 0 <= j < |cards| && (cards[j].value, cards[j].suit) == k
  {
    used := {};
    var i := 0;
    while i < |cards|
      invariant 0 <= i <= |cards|
      invariant forall k :: k in used <==> exists j :: 0 <= j < i && (cards[j].value, cards[j].suit) == k
    {
      used := used + {(cards[i].value, cards[i].suit)};
      i := i + 1;
    }
  }

  /** Recognised cards are told apart by value and suit. */
  lemma {:induction false} KeyIdentifies(c: Card, d: Card)
    requires Recognised(c) && Recognised(d) && c.value == d.value && c.suit == d.suit
    ensures c == d
  {
    assert forall i, j :: 0 <= i < j <= ACE ==> RANK_ORDER[i] != RANK_ORDER[j];
    assert forall i :: 0 <= i <= ACE ==> RANK_ORDER[i] != '\0';
  }

  /** The cards of the pool that are not in the hand, best first. */
  method UnusedCards(cardPool: seq<Card>, cards: seq<Card>) returns (out: seq<Card>)
    requires Sorted(cardPool) && forall c :: c in cardPool || c in cards ==> Recognised(c)
    ensures out == Without(cardPool, cards)
  {
    var used := UsedKeys(cards);
    out := [];
    var i := 0;
    while i < |cardPool|
      invariant 0 <= i <= |cardPool|
      invariant out == Without(cardPool[..i], cards)
    {
      var c := cardPool[i];
      assert cardPool[..i + 1] == cardPool[..i] + [c];
      WithoutSnoc(cardPool[..i], c, cards);
      if (c.value, c.suit) !in used {
        out := out + [c];
      } else {
        assert c in cardPool;
        ghost var j :| 0 <= j < |cards| && (cards[j].value, cards[j].suit) == (c.value, c.suit);
        assert cards[j] in cards;
        KeyIdentifies(c, cards[j]);
      }
      i := i + 1;
    }
    assert cardPool[..i] == cardPool;
    WithoutSorted(cardPool, cards);
    out := SortCards(out);
  }

  /** The keys of the rank index, in whatever order the map yields them, then sorted. */
  method OrderKeys(keys: set<int>) returns (order: seq<int>)
    ensures Descending(order) && forall r :: r in order <==> r in keys
  {
    var todo := keys;
    order := [];
    while exists k :: k in todo
      invariant todo <= keys && Distinct(order)
      invariant forall r :: r in order <==> r in keys && r !in todo
      decreases todo
    {
      var k :| k in todo;
      todo := todo - {k};
      order := order + [k];
    }
    SortRanksDescends(order);
    order := SortRanks(order);
  }

  // ---- Straights in a sorted pool ----

  /** The first card of the pool with the given rank, or nothing. */
  method FirstOfRank(pool: seq<Card>, target: int) returns (hit: seq<Card>)
    ensures HasRank(pool, target) ==> |hit| == 1 && hit[0].rank == target && hit[0] in pool
    ensures !HasRank(pool, target) ==> hit == []
  {
    var i := 0;
    while i < |pool|
      invariant 0 <= i <= |pool|
      invariant forall j :: 0 <= j < i ==> pool[j].rank != target
    {
      if pool[i].rank == target {
        return [pool[i]];
      }
      i := i + 1;
    }
    return [];
  }

  /** The ranks of the pool, each once, highest first. */
  method RanksHeld(pool: seq<Card>) returns (ranks: seq<int>)
    requires forall i :: 0 <= i < |pool| ==> pool[i].rank >= 0
    ensures Descending(ranks) && forall r :: r in ranks <==> HasRank(pool, r)
  {
    ranks := [];
    var i := 0;
    while i < |pool|
      invariant 0 <= i <= |pool| && Distinct(ranks)
      invariant forall r :: r in ranks <==> exists j :: 0 <= j < i && pool[j].rank == r
    {
      var r := pool[i].rank;
      if r >= 0 && r !in ranks {
        ranks := ranks + [r];
      }
      i := i + 1;
    }
    SortRanksDescends(ranks);
    ranks := SortRanks(ranks);
  }

  /** One card of each rank down from `hi`, until a rank is missing or five are found. */
  method RunDown(pool: seq<Card>, hi: int) returns (run: seq<Card>)
    requires HasRank(pool, hi)
    ensures |run| == 5 <==> StraightFrom(pool, hi)
    ensures run != [] && forall i :: 0 <= i < |run| ==> run[i].rank == hi - i && run[i] in pool
  {
    run := FirstOfRank(pool, hi);
    var j := 1;
    while j < 5
      invariant 1 <= j <= 5 && |run| == j
      invariant forall i :: 0 <= i < |run| ==> run[i].rank == hi - i && run[i] in pool
    {
      var next := FirstOfRank(pool, hi - j);
      if next == [] {
        assert j == 1 || j == 2 || j == 3 || j == 4;
        return;
      }
      run := run + next;
      j := j + 1;
    }
    RunIsStraight(pool, run, hi);
  }

  lemma {:induction false} RunIsStraight(pool: seq<Card>, run: seq<Card>, hi: int)
    requires |run| == 5 && forall i :: 0 <= i < |run| ==> run[i].rank == hi - i && run[i] in pool
    ensures StraightFrom(pool, hi)
  {
    forall i | 0 <= i < 5 ensures HasRank(pool, run[i].rank) {
      var k :| 0 <= k < |pool| && pool[k] == run[i];
    }
    assert run[0].rank == hi && run[1].rank == hi - 1 && run[2].rank == hi - 2 && run[3].rank == hi - 3
        && run[4].rank == hi - 4;
  }

  /** The highest ordinary straight, or nothing. */
  method BestRun(pool: seq<Card>, ranks: seq<int>) returns (best: seq<Card>)
    requires Descending(ranks) && forall r :: r in ranks <==> HasRank(pool, r)
    ensures best == [] ==> forall h :: !StraightFrom(pool, h)
    ensures best != [] ==> (exists h :: StraightFrom(pool, h)) && TopStraight(pool, best)
  {
    best := [];
    var i := 0;
    while i < |ranks|
      invariant 0 <= i <= |ranks|
      invariant forall j :: 0 <= j < i ==> !StraightFrom(pool, ranks[j])
    {
      assert ranks[i] in ranks;
      var run := RunDown(pool, ranks[i]);
      if |run| == 5 {
        HighestRun(pool, ranks, i, run);
        return run;
      }
      i := i + 1;
    }
    forall h ensures !StraightFrom(pool, h) {
      if HasRank(pool, h) {
        assert h in ranks;
      }
    }
  }

  lemma {:induction false} HighestRun(pool: seq<Card>, ranks: seq<int>, i: nat, run: seq<Card>)
    requires i < |ranks| && Descending(ranks) && forall r :: r in ranks <==> HasRank(pool, r)
    requires StraightFrom(pool, ranks[i]) && forall j :: 0 <= j < i ==> !StraightFrom(pool, ranks[j])
    requires |run| == 5 && forall k :: 0 <= k < 5 ==> run[k].rank == ranks[i] - k && run[k] in pool
    ensures TopStraight(pool, run)
  {
    forall h | StraightFrom(pool, h) ensures h <= ranks[i] {
      assert HasRank(pool, h) && h in ranks;
      var j :| 0 <= j < |ranks| && ranks[j] == h;
    }
    RanksOfRun(run, ranks[i]);
    forall c | c in run ensures c in pool {
      var k :| 0 <= k < 5 && run[k] == c;
    }
  }

  lemma {:induction false} RanksOfRun(run: seq<Card>, hi: int)
    requires |run| == 5 && forall k :: 0 <= k < 5 ==> run[k].rank == hi - k
    ensures Ranks(run) == [hi, hi - 1, hi - 2, hi - 3, hi - 4]
  {
  }

  /** The wheel, ace last; every one of its ranks is in the pool. */
  method TakeWheel(pool: seq<Card>) returns (run: seq<Card>)
    requires Wheel(pool)
    ensures |run| == 5 && Ranks(run) == [4, 3, 2, 1, 13] && forall c :: c in run ==> c in pool
  {
    var wheelRanks := [4, 3, 2, 1, 13];
    run := [];
    var i := 0;
    while i < |wheelRanks|
      invariant 0 <= i <= 5 && |run| == i
      invariant forall j :: 0 <= j < i ==> run[j].rank == wheelRanks[j] && run[j] in pool
    {
      var hit := FirstOfRank(pool, wheelRanks[i]);
      run := run + hit;
      i := i + 1;
    }
    assert Ranks(run) == wheelRanks;
  }

  method IndexPool(pool: seq<Card>)
    returns (sorted: seq<Card>, suits: map<char, seq<Card>>, values: map<int, seq<Card>>, order: seq<int>)
    requires forall c :: c in pool ==> Recognised(c)
    ensures sorted == SortCards(pool) && Sorted(sorted) && forall c :: c in sorted ==> Recognised(c)
    ensures BySuit(sorted, suits) && ByRank(sorted, values)
    ensures Descending(order) && forall r :: r in order <==> r in values
  {
    sorted := SortCards(pool);
    SortKeeps(pool);
    suits, values := IndexCards(sorted);
    order := OrderKeys(values.Keys);
  }

  class Hand {
    var rank: int
    var cards: seq<Card>
    var isPossible: bool
    var cardPool: seq<Card>
    var suits: map<char, seq<Card>>
    var values: map<int, seq<Card>>
    var valueOrder: seq<int>

    /** The indexes describe the sorted pool. */
    ghost predicate Indexed()
      reads this
    {
      && Sorted(cardPool)
      && (forall c :: c in cardPool ==> Recognised(c))
      && BySuit(cardPool, suits)
      && ByRank(cardPool, values)
      && Descending(valueOrder)
      && (forall r :: r in valueOrder <==> r in values)
    }

    /** A hand whose category pass has not run yet. */
    ghost predicate Ready()
      reads this
    {
      Indexed() && cards == [] && !isPossible
    }

    /** The outcome every category pass promises. */
    ghost predicate Outcome(k: int)
      reads this
    {
      (isPossible <==> Possible(k, cardPool)) && (isPossible ==> Found(k, cardPool, cards))
    }

    constructor (pool: seq<Card>, rank: int)
      requires forall c :: c in pool ==> Recognised(c)
      ensures Ready() && cardPool == SortCards(pool) && this.rank == rank
    {
      this.rank := rank;
      cards := [];
      isPossible := false;
      var sorted, bySuit, byRank, order := IndexPool(pool);
      cardPool, suits, values, valueOrder := sorted, bySuit, byRank, order;
    }

    /** 1 when this hand loses to `o`, -1 when it beats it. */
    function Compare(o: Hand): int
      reads this, o
    {
      CompareHands(rank, cards, o.rank, o.cards)
    }

    function NumCardsByRank(val: int): nat
      reads this
    {
      if val in values then |values[val]| else 0
    }

    method NextHighest() returns (out: seq<Card>)
      requires Indexed() && forall c :: c in cards ==> c in cardPool
      ensures out == Without(cardPool, cards)
    {
      out := UnusedCards(cardPool, cards);
    }

    /** Appends the best unused cards until the hand holds `CARDS_IN_HAND`. */
    method AddKickers(made: nat)
      requires Indexed() && made <= CARDS_IN_HAND && forall c :: c in cards ==> c in cardPool
      modifies this`cards
      ensures cards == old(cards) + Take(Without(cardPool, old(cards)), CARDS_IN_HAND - made)
    {
      var more := NextHighest();
      var need := CARDS_IN_HAND - made;
      if need > |more| {
        need := |more|;
      }
      cards := cards + more[..need];
    }

    method SolveFourOfAKind()
      requires Ready()
      modifies `cards, `isPossible
      ensures Outcome(8)
    {
      var i := 0;
      while i < |valueOrder|
        invariant 0 <= i <= |valueOrder| && cards == []
        invariant forall j :: 0 <= j < i ==> Count(cardPool, valueOrder[j]) != 4
      {
        var r := valueOrder[i];
        if NumCardsByRank(r) == 4 {
          TopInOrder(4, i);
          cards := cards + values[r];
          assert cards == OfRank(cardPool, r);
          AddKickers(4);
          assert cards[0].rank == r;
          break;
        }
        i := i + 1;
      }
      if i == |valueOrder| {
        NoneInOrder(4);
      }
      isPossible := |cards| >= 4;
    }

    /** The first rank of the descending order with `n` cards is the top one. */
    lemma {:induction false} TopInOrder(n: nat, i: nat)
      requires Indexed() && i < |valueOrder| && n > 0
      requires Count(cardPool, valueOrder[i]) == n
      requires forall j :: 0 <= j < i ==> Count(cardPool, valueOrder[j]) != n
      ensures TopExactly(cardPool, n, valueOrder[i])
      ensures var g := OfRank(cardPool, valueOrder[i]);
        g[0].rank == valueOrder[i] && forall c :: c in g ==> c in cardPool
    {
      var a := valueOrder[i];
      var g := OfRank(cardPool, a);
      assert g[0] in g;
      forall r | r > a ensures Count(cardPool, r) != n {
        if r in values {
          var j :| 0 <= j < |valueOrder| && valueOrder[j] == r;
        }
      }
    }

    lemma {:induction false} NoneInOrder(n: nat)
      requires Indexed() && n > 0
      requires forall j :: 0 <= j < |valueOrder| ==> Count(cardPool, valueOrder[j]) != n
      ensures forall r :: Count(cardPool, r) != n
    {
      forall r ensures Count(cardPool, r) != n {
        if r in values {
          assert r in valueOrder;
        }
      }
    }

    method SolveThreeOfAKind()
      requires Ready()
      modifies `cards, `isPossible
      ensures Outcome(4)
    {
      var i := 0;
      while i < |valueOrder|
        invariant 0 <= i <= |valueOrder| && cards == []
        invariant forall j :: 0 <= j < i ==> Count(cardPool, valueOrder[j]) != 3
      {
        var r := valueOrder[i];
        if NumCardsByRank(r) == 3 {
          TopInOrder(3, i);
          cards := values[r];
          AddKickers(3);
          assert cards[0].rank == r;
          break;
        }
        i := i + 1;
      }
      if i == |valueOrder| {
        NoneInOrder(3);
      }
      isPossible := |cards| >= 3;
    }

    method SolveOnePair()
      requires Ready()
      modifies `cards, `isPossible
      ensures Outcome(2)
    {
      var i := 0;
      while i < |valueOrder|
        invariant 0 <= i <= |valueOrder| && cards == []
        invariant forall j :: 0 <= j < i ==> Count(cardPool, valueOrder[j]) != 2
      {
        var r := valueOrder[i];
        if NumCardsByRank(r) == 2 {
          TopInOrder(2, i);
          cards := values[r];
          AddKickers(2);
          assert cards[0].rank == r;
          break;
        }
        i := i + 1;
      }
      if i == |valueOrder| {
        NoneInOrder(2);
      }
      isPossible := |cards| >= 2;
    }

    method SolveHighCard()
      requires Ready() && cardPool != []
      modifies `cards, `isPossible
      ensures Outcome(1)
    {
      SortedIsFixed(cardPool);
      cards := SortCards(cardPool);
      if |cards| > CARDS_IN_HAND {
        cards := cards[..CARDS_IN_HAND];
      }
      isPossible := true;
    }

    /** A rank of the order is top-paired when no earlier one but `skip` is paired. */
    lemma {:induction false} TopPairedInOrder(skip: int, i: nat)
      requires Indexed() && i < |valueOrder| && valueOrder[i] != skip
      requires Count(cardPool, valueOrder[i]) >= 2
      requires forall j :: 0 <= j < i && valueOrder[j] != skip ==> Count(cardPool, valueOrder[j]) < 2
      ensures TopPaired(cardPool, skip, valueOrder[i])
      ensures var g := OfRank(cardPool, valueOrder[i]);
        |g| >= 2 && g[0].rank == valueOrder[i] && forall c :: c in g ==> c in cardPool
    {
      var b := valueOrder[i];
      assert OfRank(cardPool, b)[0] in OfRank(cardPool, b);
      forall r | r > b && r != skip ensures Count(cardPool, r) < 2 {
        if r in values {
          var j :| 0 <= j < |valueOrder| && valueOrder[j] == r;
        }
      }
    }

    lemma {:induction false} NonePairedInOrder(skip: int)
      requires Indexed()
      requires forall j :: 0 <= j < |valueOrder| && valueOrder[j] != skip ==> Count(cardPool, valueOrder[j]) < 2
      ensures forall r :: r != skip ==> Count(cardPool, r) < 2
    {
      forall r | r != skip ensures Count(cardPool, r) < 2 {
        if r in values {
          assert r in valueOrder;
        }
      }
    }

    /** The first exact triple of the value order, if any. */
    method TakeTriple() returns (a: int)
      requires Ready()
      modifies `cards
      ensures cards == [] || |cards| == 3
      ensures cards == [] ==> forall r :: Count(cardPool, r) != 3
      ensures cards != [] ==> TopExactly(cardPool, 3, a) && cards == OfRank(cardPool, a) && cards[0].rank == a
      ensures forall c :: c in cards ==> c in cardPool
    {
      var i := 0;
      a := 0;
      while i < |valueOrder|
        invariant 0 <= i <= |valueOrder| && cards == []
        invariant forall j :: 0 <= j < i ==> Count(cardPool, valueOrder[j]) != 3
      {
        a := valueOrder[i];
        if NumCardsByRank(a) == 3 {
          TopInOrder(3, i);
          cards := values[a];
          return;
        }
        i := i + 1;
      }
      NoneInOrder(3);
    }

    /** The place in the value order of the first rank but that of the triple held at least twice, or its length. */
    method PairBeside(ghost a: int) returns (i: nat)
      requires Indexed() && a in values && |cards| == 3 && cards == OfRank(cardPool, a)
      ensures i <= |valueOrder| && (i < |valueOrder| ==> valueOrder[i] != a && Count(cardPool, valueOrder[i]) >= 2)
      ensures forall j :: 0 <= j < i && valueOrder[j] != a ==> Count(cardPool, valueOrder[j]) < 2
    {
      i := 0;
      while i < |valueOrder|
        invariant 0 <= i <= |valueOrder|
        invariant forall j :: 0 <= j < i && valueOrder[j] != a ==> Count(cardPool, valueOrder[j]) < 2
      {
        var r := valueOrder[i];
        var group := values[r];
        SameValueSameRank(a, r);
        if |group| > 0 && cards[0].value == group[0].value {
          i := i + 1;
          continue;
        }
        if NumCardsByRank(r) >= 2 {
          return i;
        }
        i := i + 1;
      }
    }

    method SolveFullHouse()
      requires Ready()
      modifies `cards, `isPossible
      ensures Outcome(7)
    {
      ghost var a := TakeTriple();
      if |cards| == 3 {
        TripleHeld(a);
        var i := PairBeside(a);
        if i < |valueOrder| {
          TopPairedInOrder(a, i);
          AddPair(valueOrder[i]);
          FullHouseFound(a, valueOrder[i]);
        } else {
          NonePairedInOrder(a);
          OnlyTop(a);
        }
      }
      isPossible := |cards| >= 5;
    }

    lemma {:induction false} TripleHeld(a: int)
      requires Indexed() && Count(cardPool, a) == 3
      ensures a in values
    {
    }

    method AddPair(r: int)
      requires Indexed() && |cards| == 3 && r in values && |values[r]| >= 2
      requires forall c :: c in cards ==> c in cardPool
      modifies `cards
      ensures cards == old(cards) + values[r]
    {
      var group := values[r];
      cards := cards + group;
      assert forall c :: c in group ==> c in OfRank(cardPool, r);
      AddKickers(5);
    }

    lemma {:induction false} FullHouseFound(a: int, b: int)
      requires TopExactly(cardPool, 3, a) && TopPaired(cardPool, a, b)
      requires cards == OfRank(cardPool, a) + OfRank(cardPool, b)
      ensures Possible(7, cardPool) && Found(7, cardPool, cards) && |cards| >= 5
    {
      var triple, pair := OfRank(cardPool, a), OfRank(cardPool, b);
      assert triple[0] in triple && pair[0] in pair;
      assert cards[0] == triple[0] && cards[3] == pair[0];
    }

    lemma {:induction false} OnlyTop(a: int)
      requires TopExactly(cardPool, 3, a) && forall r :: r != a ==> Count(cardPool, r) < 2
      ensures !Possible(7, cardPool)
    {
    }

    lemma {:induction false} SameValueSameRank(a: int, r: int)
      requires Indexed() && a in values && r in values
      ensures values[a][0].value == values[r][0].value <==> a == r
    {
      assert values[a][0] in OfRank(cardPool, a) && values[r][0] in OfRank(cardPool, r);
      assert forall i, j :: 0 <= i < j <= ACE ==> RANK_ORDER[i] != RANK_ORDER[j];
      assert forall i :: 0 <= i <= ACE ==> RANK_ORDER[i] != '\0';
    }

    /** The ranks held at least twice, in value order. */
    method CollectPairs() returns (pairs: seq<int>)
      requires Indexed()
      ensures Descending(pairs) && forall r :: r in pairs <==> r in valueOrder && Count(cardPool, r) >= 2
    {
      pairs := [];
      var i := 0;
      while i < |valueOrder|
        invariant 0 <= i <= |valueOrder|
        invariant forall r :: r in pairs <==> r in valueOrder[..i] && Count(cardPool, r) >= 2
        invariant Descending(pairs)
      {
        assert valueOrder[..i + 1] == valueOrder[..i] + [valueOrder[i]];
        if NumCardsByRank(valueOrder[i]) >= 2 {
          forall j | 0 <= j < |pairs| ensures pairs[j] > valueOrder[i] {
            assert pairs[j] in pairs && pairs[j] in valueOrder[..i];
            var m :| 0 <= m < i && valueOrder[m] == pairs[j];
          }
          pairs := pairs + [valueOrder[i]];
        }
        i := i + 1;
      }
      assert valueOrder[..i] == valueOrder;
    }

    method SolveTwoPair()
      requires Ready()
      modifies `cards, `isPossible
      ensures Outcome(3)
    {
      var pairs := CollectPairs();
      PairedRanks(pairs);
      if |pairs| >= 2 {
        TakePairs(pairs[0], pairs[1]);
        TwoPairsFound(pairs[0], pairs[1], cards);
        isPossible := true;
      } else {
        isPossible := false;
      }
    }

    /** Both pairs and the best card left over. */
    method TakePairs(a: int, b: int)
      requires Indexed() && FirstOf(a) && FirstOf(b)
      modifies `cards
      ensures var both := OfRank(cardPool, a) + OfRank(cardPool, b); cards == both + Take(Without(cardPool, both), 1)
    {
      cards := values[a];
      cards := cards + values[b];
      ghost var both := cards;
      var more := NextHighest();
      if |more| > 0 {
        cards := cards + [more[0]];
      }
      assert cards == both + Take(Without(cardPool, both), 1);
    }

    lemma {:induction false} TwoPairsFound(a: int, b: int, found: seq<Card>)
      requires TopPaired(cardPool, -1, a) && TopPaired(cardPool, a, b)
      requires OfRank(cardPool, a)[0].rank == a && OfRank(cardPool, b)[0].rank == b
      requires var both := OfRank(cardPool, a) + OfRank(cardPool, b); found == both + Take(Without(cardPool, both), 1)
      ensures Found(3, cardPool, found)
    {
      assert found[0] == OfRank(cardPool, a)[0];
      assert found[|OfRank(cardPool, a)|] == OfRank(cardPool, b)[0];
    }

    lemma {:induction false} PairedRanks(pairs: seq<int>)
      requires Indexed() && Descending(pairs)
      requires forall r :: r in pairs <==> r in valueOrder && Count(cardPool, r) >= 2
      ensures |pairs| >= 2 <==> Possible(3, cardPool)
      ensures |pairs| >= 2 ==>
                && TopPaired(cardPool, -1, pairs[0]) && TopPaired(cardPool, pairs[0], pairs[1])
                && FirstOf(pairs[0]) && FirstOf(pairs[1])
    {
      forall r ensures Count(cardPool, r) >= 2 <==> r in pairs {
        if Count(cardPool, r) >= 2 { assert r in values; }
      }
      forall r | r in pairs ensures FirstOf(r) && r >= 0 {
        assert OfRank(cardPool, r)[0] in OfRank(cardPool, r);
      }
      if |pairs| >= 2 {
        assert pairs[0] in pairs && pairs[1] in pairs;
      }
    }

    /** The index entry of a rank starts with a card of that rank. */
    ghost predicate FirstOf(r: int)
      reads this
    {
      r in values && values[r] == OfRank(cardPool, r) && values[r] != [] && values[r][0].rank == r
    }

    method CardsForFlush(suit: char) returns (out: seq<Card>)
      requires Indexed() && suit in suits
      ensures out == OfSuit(cardPool, suit) && Sorted(out) && forall c :: c in out ==> Recognised(c)
    {
      FilterSorted(cardPool, (c: Card) => c.suit == suit);
      SortedIsFixed(OfSuit(cardPool, suit));
      out := SortCards(SortCards(suits[suit]));
    }

    /** The cards of a suit held at least five times, or nothing. */
    method FlushSuit() returns (suited: seq<Card>)
      requires Indexed()
      ensures suited == [] ==> forall s :: |OfSuit(cardPool, s)| < 5
      ensures suited != [] ==> |suited| >= 5 && suited == OfSuit(cardPool, suited[0].suit)
    {
      var todo := suits.Keys;
      while exists s :: s in todo
        invariant todo <= suits.Keys
        invariant forall s :: s in suits && s !in todo ==> |OfSuit(cardPool, s)| < 5
        decreases todo
      {
        var suit :| suit in todo;
        todo := todo - {suit};
        suited := CardsForFlush(suit);
        if |suited| >= SF_QUALIFY {
          assert suited[0] in suited;
          return;
        }
      }
      suited := [];
    }

    method SolveFlush()
      requires Ready()
      modifies `cards, `isPossible
      ensures Outcome(6)
    {
      var suited := FlushSuit();
      cards := suited;
      if |cards| >= SF_QUALIFY {
        if |cards| > CARDS_IN_HAND {
          cards := cards[..CARDS_IN_HAND];
        }
        FlushFound(suited);
      }
      isPossible := |cards| >= SF_QUALIFY;
    }

    lemma {:induction false} FlushFound(suited: seq<Card>)
      requires |suited| >= 5 && suited == OfSuit(cardPool, suited[0].suit)
      ensures Possible(6, cardPool) && Found(6, cardPool, suited[..5])
    {
      assert suited[..5][0] == suited[0];
    }

    method SolveStraight()
      requires Ready()
      modifies `cards, `isPossible
      ensures Outcome(5)
    {
      assert forall i :: 0 <= i < |cardPool| ==> cardPool[i] in cardPool;
      var ranks := RanksHeld(cardPool);
      var best := BestRun(cardPool, ranks);
      if |best| < 5 && 13 in ranks && 1 in ranks && 2 in ranks && 3 in ranks && 4 in ranks {
        best := TakeWheel(cardPool);
        assert best[0].rank == Ranks(best)[0];
      }
      if |best| >= 5 {
        cards := Take(best, CARDS_IN_HAND);
        assert cards == best;
        isPossible := true;
      } else {
        isPossible := false;
      }
    }

    method SolveStraightFlush()
      requires Ready()
      modifies `cards, `isPossible
      ensures Outcome(9)
    {
      var todo := suits.Keys;
      while exists s :: s in todo
        invariant todo <= suits.Keys
        invariant cards != [] ==> |cards| == 5 && Found(9, cardPool, cards) && Possible(9, cardPool)
        invariant cards == [] ==>
                    forall s :: s in suits && s !in todo && |OfSuit(cardPool, s)| >= 5 ==>
                        !HasStraight(OfSuit(cardPool, s))
        decreases todo
      {
        var suit :| suit in todo;
        todo := todo - {suit};
        var ok, straight := StraightOfSuit(suit);
        if ok {
          cards := straight;
        }
      }
      isPossible := |cards| >= SF_QUALIFY;
    }

    /** A straight in one suit, if it has enough cards and there is one. */
    method StraightOfSuit(suit: char) returns (ok: bool, straight: seq<Card>)
      requires Indexed() && suit in suits
      ensures ok ==> |straight| == 5 && Found(9, cardPool, straight) && Possible(9, cardPool)
      ensures !ok && |OfSuit(cardPool, suit)| >= 5 ==> !HasStraight(OfSuit(cardPool, suit))
    {
      var flushCards := CardsForFlush(suit);
      ok, straight := false, [];
      if |flushCards| >= SF_QUALIFY {
        ok, straight := StraightAmong(flushCards);
        if ok {
          SuitedStraight(cardPool, suit, straight);
          assert Take(straight, CARDS_IN_HAND) == straight;
          straight := Take(straight, CARDS_IN_HAND);
        }
      }
    }
  }

  lemma {:induction false} SuitedStraight(pool: seq<Card>, suit: char, straight: seq<Card>)
    requires |OfSuit(pool, suit)| >= 5 && HasStraight(OfSuit(pool, suit)) && TopStraight(OfSuit(pool, suit), straight)
    ensures Found(9, pool, straight) && Possible(9, pool)
  {
    assert straight[0] in straight;
  }

  /** The inner hand of the straight-flush pass: a straight among cards of one suit. */
  method StraightAmong(flushCards: seq<Card>) returns (ok: bool, straight: seq<Card>)
    requires Sorted(flushCards) && forall c :: c in flushCards ==> Recognised(c)
    ensures ok <==> HasStraight(flushCards)
    ensures ok ==> TopStraight(flushCards, straight)
  {
    var st2 := new Hand(flushCards, 5);
    SortedIsFixed(flushCards);
    st2.SolveStraight();
    ok, straight := st2.isPossible, st2.cards;
  }

  /** The codes the solver works on: an empty list is treated as one empty code. */
  function Codes(cards: seq<string>): seq<string> {
    if |cards| == 0 then [""] else cards
  }

  method HasDuplicate(codes: seq<string>) returns (dup: bool)
    ensures dup <==> !Distinct(codes)
  {
    var seen: set<string> := {};
    var i := 0;
    while i < |codes|
      invariant 0 <= i <= |codes|
      invariant forall c :: c in seen <==> c in codes[..i]
      invariant Distinct(codes[..i])
    {
      assert codes[..i + 1] == codes[..i] + [codes[i]];
      if codes[i] in seen {
        var j :| 0 <= j < i && codes[j] == codes[i];
        return true;
      }
      seen := seen + {codes[i]};
      i := i + 1;
    }
    assert codes[..i] == codes;
    return false;
  }

  method RunPass(h: Hand, k: int)
    requires h.Ready() && h.cardPool != []
    modifies h`cards, h`isPossible
    ensures h.Outcome(k)
  {
    match k
    case 9 => h.SolveStraightFlush();
    case 8 => h.SolveFourOfAKind();
    case 7 => h.SolveFullHouse();
    case 6 => h.SolveFlush();
    case 5 => h.SolveStraight();
    case 4 => h.SolveThreeOfAKind();
    case 3 => h.SolveTwoPair();
    case 2 => h.SolveOnePair();
    case _ => h.SolveHighCard();
  }

  lemma {:induction false} NoneAboveStep(k: int, pool: seq<Card>)
    requires NoneAbove(k, pool) && !Possible(k, pool)
    ensures NoneAbove(k - 1, pool)
  {
  }

  lemma {:induction false} HighCardSucceeds(pool: seq<Card>)
    ensures !NoneAbove(0, pool)
  {
    assert Possible(1, pool);
  }

  /** Runs the categories from the straight flush down and keeps the first hand that succeeds. */
  method FirstPossible(pool: seq<Card>) returns (h: Hand)
    requires pool != [] && forall c :: c in pool ==> Recognised(c)
    ensures fresh(h) && h.isPossible && 1 <= h.rank <= 9
    ensures NoneAbove(h.rank, SortCards(pool)) && Found(h.rank, SortCards(pool), h.cards)
  {
    SortKeeps(pool);
    var k := 9;
    while true
      invariant 0 <= k <= 9
      invariant NoneAbove(k, SortCards(pool))
      decreases k
    {
      if k == 0 {
        HighCardSucceeds(SortCards(pool));
      }
      h := new Hand(pool, k);
      RunPass(h, k);
      if h.isPossible {
        return;
      }
      NoneAboveStep(k, SortCards(pool));
      k := k - 1;
    }
  }

  /** Distinct cards come from distinct codes. */
  lemma {:induction false} DistinctCodes(cards: seq<string>)
    requires Distinct(ParseAll(cards)) && cards != []
    ensures Distinct(Codes(cards)) && Codes(cards) == cards
  {
    forall i, j | 0 <= i < j < |cards| ensures cards[i] != cards[j] {
      assert ParseAll(cards)[i] != ParseAll(cards)[j];
    }
  }

  /** The server's hand evaluation. On cards of the deck its verdict is that of the exhaustive evaluator. */
  method Solve(cards: seq<string>) returns (h: Hand)
    requires forall i :: 0 <= i < |cards| ==> Recognised(NewCard(cards[i]))
    ensures fresh(h)
    ensures h.isPossible <==> Distinct(Codes(cards))
    ensures !h.isPossible ==> h.rank == 0 && h.cards == []
    ensures Solvable(ParseAll(cards)) ==> h.isPossible && Decides(h.rank, h.cards, ParseAll(cards))
  {
    var codes := Codes(cards);
    var dup := HasDuplicate(codes);
    if Solvable(ParseAll(cards)) {
      DistinctCodes(cards);
    }
    if dup {
      h := new Hand([], 0);
    } else {
      h := FirstPossible(ParseAll(codes));
      if Solvable(ParseAll(cards)) {
        FirstFoundDecides(ParseAll(cards), h.rank, h.cards);
      }
    }
  }

  /** The hands of the list that tie with `best`, in order. */
  ghost function TiedWith(hands: seq<Hand>, best: Hand): (tied: seq<Hand>)
    reads best, hands
    ensures forall i :: 0 <= i < |tied| ==> tied[i] in hands && tied[i].Compare(best) == 0
    ensures forall i :: 0 <= i < |hands| && hands[i].Compare(best) == 0 ==> hands[i] in tied
  {
    if hands == [] then []
    else (if hands[0].Compare(best) == 0 then [hands[0]] else []) + TiedWith(hands[1..], best)
  }

  lemma {:induction false} TiedSnoc(hands: seq<Hand>, h: Hand, best: Hand)
    ensures TiedWith(hands + [h], best) == TiedWith(hands, best) + if h.Compare(best) == 0 then [h] else []
  {
    if hands == [] {
      assert hands + [h] == [h];
    } else {
      TiedSnoc(hands[1..], h, best);
      assert (hands + [h])[1..] == hands[1..] + [h];
    }
  }

  /** `best` loses to none of the hands. */
  ghost predicate Unbeaten(best: Hand, hands: seq<Hand>)
    reads best, hands
  {
    forall h :: h in hands ==> best.Compare(h) <= 0
  }

  /** The first hand that beats every champion before it. */
  ghost function Champion(hands: seq<Hand>): (best: Hand)
    requires hands != []
    reads hands
    ensures best in hands
  {
    if |hands| == 1 then hands[0]
    else
      var best := Champion(hands[..|hands| - 1]);
      if hands[|hands| - 1].Compare(best) < 0 then hands[|hands| - 1] else best
  }

  lemma {:induction false} ChampionUnbeaten(hands: seq<Hand>)
    requires hands != [] && forall h :: h in hands ==> |h.cards| >= 5
    ensures Unbeaten(Champion(hands), hands)
    decreases |hands|
  {
    var h, front := hands[|hands| - 1], hands[..|hands| - 1];
    CompareHandsOpposite(h.rank, h.cards, h.rank, h.cards);
    if front != [] {
      ChampionUnbeaten(front);
      var best := Champion(front);
      CompareHandsOpposite(h.rank, h.cards, best.rank, best.cards);
      if h.Compare(best) < 0 {
        StillUnbeaten(h, best, front);
      }
      assert forall g :: g in hands ==> g == h || g in front;
    }
  }

  /** All hands that tie with the champion of the scan, in their order; of hands of five cards or more exactly those no
      other beats. */
  method Winners(hands: seq<Hand>) returns (winners: seq<Hand>)
    ensures hands == [] ==> winners == []
    ensures hands != [] ==> winners == TiedWith(hands, Champion(hands)) && Champion(hands) in winners
    ensures (forall h :: h in hands ==> |h.cards| >= 5) ==> forall h :: h in winners <==>
      h in hands && Unbeaten(h, hands)
    ensures (forall h :: h in hands ==> |h.cards| >= 5) && hands != [] ==> winners == TiedWith(hands, winners[0])
  {
    if |hands| == 0 {
      return [];
    }
    var best := hands[0];
    var i := 1;
    while i < |hands|
      invariant 1 <= i <= |hands| && best == Champion(hands[..i])
    {
      assert hands[..i + 1][..i] == hands[..i];
      if hands[i].Compare(best) < 0 {
        best := hands[i];
      }
      i := i + 1;
    }
    assert hands[..i] == hands;
    winners := [];
    i := 0;
    while i < |hands|
      invariant 0 <= i <= |hands|
      invariant winners == TiedWith(hands[..i], best)
    {
      assert hands[..i + 1] == hands[..i] + [hands[i]];
      TiedSnoc(hands[..i], hands[i], best);
      if hands[i].Compare(best) == 0 {
        winners := winners + [hands[i]];
      }
      i := i + 1;
    }
    assert hands[..i] == hands;
    CompareHandsOpposite(best.rank, best.cards, best.rank, best.cards);
    if forall h :: h in hands ==> |h.cards| >= 5 {
      ChampionUnbeaten(hands);
      TiedAreUnbeaten(hands, best);
    }
  }

  lemma {:induction false} StillUnbeaten(h: Hand, best: Hand, hands: seq<Hand>)
    requires |h.cards| >= 5 && |best.cards| >= 5 && forall g :: g in hands ==> |g.cards| >= 5
    requires h.Compare(best) < 0 && Unbeaten(best, hands)
    ensures Unbeaten(h, hands)
  {
    forall g | g in hands ensures h.Compare(g) <= 0 {
      CompareHandsTransitive(h.rank, h.cards, best.rank, best.cards, g.rank, g.cards);
    }
  }

  lemma {:induction false} TiedAreUnbeaten(hands: seq<Hand>, best: Hand)
    requires best in hands && Unbeaten(best, hands) && forall g :: g in hands ==> |g.cards| >= 5
    ensures forall h :: h in TiedWith(hands, best) <==> h in hands && Unbeaten(h, hands)
    ensures var tied := TiedWith(hands, best); tied != [] && tied == TiedWith(hands, tied[0])
  {
    CompareHandsOpposite(best.rank, best.cards, best.rank, best.cards);
    assert best in TiedWith(hands, best);
    forall h | h in hands ensures h.Compare(best) == 0 <==> Unbeaten(h, hands) {
      CompareHandsOpposite(h.rank, h.cards, best.rank, best.cards);
      if h.Compare(best) == 0 {
        forall g | g in hands ensures h.Compare(g) <= 0 {
          CompareHandsTransitive(h.rank, h.cards, best.rank, best.cards, g.rank, g.cards);
        }
      }
    }
    var first := TiedWith(hands, best)[0];
    forall h | h in hands ensures h.Compare(best) == 0 <==> h.Compare(first) == 0 {
      CompareHandsOpposite(h.rank, h.cards, first.rank, first.cards);
      CompareHandsOpposite(h.rank, h.cards, best.rank, best.cards);
      CompareHandsOpposite(best.rank, best.cards, first.rank, first.cards);
      if h.Compare(best) == 0 {
        CompareHandsTransitive(h.rank, h.cards, best.rank, best.cards, first.rank, first.cards);
        CompareHandsTransitive(first.rank, first.cards, best.rank, best.cards, h.rank, h.cards);
      }
      if h.Compare(first) == 0 {
        CompareHandsTransitive(h.rank, h.cards, first.rank, first.cards, best.rank, best.cards);
        CompareHandsTransitive(best.rank, best.cards, first.rank, first.cards, h.rank, h.cards);
      }
    }
    TiedSame(hands, best, first);
  }

  lemma {:induction false} TiedSame(hands: seq<Hand>, a: Hand, b: Hand)
    requires forall h :: h in hands ==> (h.Compare(a) == 0 <==> h.Compare(b) == 0)
    ensures TiedWith(hands, a) == TiedWith(hands, b)
  {
    if hands != [] {
      TiedSame(hands[1..], a, b);
    }
  }
}
