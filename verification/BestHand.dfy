/** The exhaustive evaluator of the table client: rank every five-card combination, keep the best.
    Ranks stay on the parsed-card scale (deuce 1, ace 13), one below the client's 2..14, which
    `ParsersAgree` justifies; the client's two rank constants are shifted accordingly. */
module BestHand {
  import opened Sequences
  import opened Cards

  datatype Evaluated = Evaluated(category: int, tiebreak: seq<int>)

  const CLIENT_RANK_ORDER := "23456789TJQKA"

  function ClientRank(code: string): int
    requires |code| >= 2
  {
    IndexIn(CLIENT_RANK_ORDER, code[0]) + 2
  }

  /** A canonical two-character code of the 52-card deck. */
  predicate DeckCode(code: string) {
    && |code| == 2
    && code[0] in CLIENT_RANK_ORDER
    && (code[1] == 'C' || code[1] == 'D' || code[1] == 'H' || code[1] == 'S')
  }

  /** The ranks held by exactly `n` of the cards, highest first. */
  function GroupsOf(cards: seq<Card>, n: nat, hi: int): (r: seq<int>)
    decreases hi
    ensures Descending(r) && (forall i :: 0 <= i < |r| ==> r[i] <= hi)
    ensures forall x :: x in r <==> 1 <= x <= hi && Count(cards, x) == n
  {
    if hi < 1 then [] else if Count(cards, hi) == n then [hi] + GroupsOf(cards, n, hi - 1)
    else GroupsOf(cards, n, hi - 1)
  }

  /** The order of the groups: bigger groups first, then higher ranks. */
  predicate Before(cards: seq<Card>, x: int, y: int) {
    Count(cards, x) > Count(cards, y) || (Count(cards, x) == Count(cards, y) && x > y)
  }

  ghost predicate GroupOrdered(cards: seq<Card>, groups: seq<int>) {
    forall i, j :: 0 <= i < j < |groups| ==> Before(cards, groups[i], groups[j])
  }

  /** One rank per group of at most `n` cards, in group order. */
  function GroupsUpTo(cards: seq<Card>, n: nat): (r: seq<int>)
    ensures GroupOrdered(cards, r)
    ensures forall x :: x in r <==> 1 <= x <= ACE && 1 <= Count(cards, x) <= n
  {
    if n == 0 then [] else GroupsOf(cards, n, ACE) + GroupsUpTo(cards, n - 1)
  }

  function GroupRanks(cards: seq<Card>): seq<int> {
    GroupsUpTo(cards, |cards|)
  }

  function DistinctRanks(cards: seq<Card>, hi: int): (r: seq<int>)
    decreases hi
    ensures Descending(r) && (forall i :: 0 <= i < |r| ==> r[i] <= hi)
    ensures forall x :: x in r <==> 1 <= x <= hi && Count(cards, x) > 0
  {
    if hi < 1 then [] else if Count(cards, hi) > 0 then [hi] + DistinctRanks(cards, hi - 1)
    else DistinctRanks(cards, hi - 1)
  }

  /** 0 when the ranks make no straight; the wheel's high card is its five. */
  function StraightHigh(ranks: seq<int>): int {
    if |ranks| != 5 then 0
    else if ranks[0] - ranks[4] == 4 then ranks[0]
    else if ranks == [13, 4, 3, 2, 1] then 4
    else 0
  }

  predicate IsFlush(cards: seq<Card>) {
    forall i :: 0 <= i < |cards| ==> cards[i].suit == cards[0].suit
  }

  function GroupSize(cards: seq<Card>, i: nat): nat {
    if i < |GroupRanks(cards)| then Count(cards, GroupRanks(cards)[i]) else 0
  }

  /** The category decision: `n0` and `n1` are the sizes of the two biggest groups. */
  function Classify(groupRanks: seq<int>, n0: nat, n1: nat, ranks: seq<int>, flush: bool): Evaluated {
    var high := StraightHigh(ranks);
    if high != 0 && flush then Evaluated(9, [high])
    else if n0 == 4 then Evaluated(8, groupRanks)
    else if n0 == 3 && n1 == 2 then Evaluated(7, groupRanks)
    else if flush then Evaluated(6, ranks)
    else if high != 0 then Evaluated(5, [high])
    else if n0 == 3 then Evaluated(4, groupRanks)
    else if n0 == 2 && n1 == 2 then Evaluated(3, groupRanks)
    else if n0 == 2 then Evaluated(2, groupRanks)
    else Evaluated(1, ranks)
  }

  function EvaluateFive(cards: seq<Card>): Evaluated {
    Classify(GroupRanks(cards), GroupSize(cards, 0), GroupSize(cards, 1), DistinctRanks(cards, ACE), IsFlush(cards))
  }

  function At(t: seq<int>, i: nat): int {
    if i < |t| then t[i] else 0
  }

  /** The first difference of two tiebreaks at or after `i`; missing entries read as 0. */
  function TieDiff(a: seq<int>, b: seq<int>, i: nat): int
    decreases |a| + |b| - i
  {
    if i >= |a| && i >= |b| then 0
    else if At(a, i) != At(b, i) then At(a, i) - At(b, i)
    else TieDiff(a, b, i + 1)
  }

  function Compare(a: Evaluated, b: Evaluated): int {
    if a.category != b.category then a.category - b.category else TieDiff(a.tiebreak, b.tiebreak, 0)
  }

  function PrefixAll<T>(head: T, tails: seq<seq<T>>): (r: seq<seq<T>>)
    ensures |r| == |tails| && forall i :: 0 <= i < |r| ==> r[i] == [head] + tails[i]
  {
    seq(|tails|, i requires 0 <= i < |tails| => [head] + tails[i])
  }

  function Combinations<T>(items: seq<T>, k: nat): seq<seq<T>>
    decreases |items|
  {
    if k == 0 then [[]]
    else if |items| < k then []
    else PrefixAll(items[0], Combinations(items[1..], k - 1)) + Combinations(items[1..], k)
  }

  function EvaluateAll(fives: seq<seq<Card>>): (es: seq<Evaluated>)
    ensures |es| == |fives| && forall i :: 0 <= i < |es| ==> es[i] == EvaluateFive(fives[i])
  {
    seq(|fives|, i requires 0 <= i < |fives| => EvaluateFive(fives[i]))
  }

  /** The client's running best: a later hand replaces it only when strictly better. */
  function BestOf(es: seq<Evaluated>): Evaluated
    requires es != []
  {
    if |es| == 1 then es[0]
    else
      var best := BestOf(es[..|es| - 1]);
      if Compare(es[|es| - 1], best) > 0 then es[|es| - 1] else best
  }

  method CompareLoop(a: Evaluated, b: Evaluated) returns (d: int)
    ensures d == Compare(a, b)
  {
    if a.category != b.category {
      return a.category - b.category;
    }
    var n := if |a.tiebreak| > |b.tiebreak| then |a.tiebreak| else |b.tiebreak|;
    var i := 0;
    while i < n
      invariant 0 <= i <= n
      invariant TieDiff(a.tiebreak, b.tiebreak, 0) == TieDiff(a.tiebreak, b.tiebreak, i)
    {
      d := At(a.tiebreak, i) - At(b.tiebreak, i);
      if d != 0 {
        return;
      }
      i := i + 1;
    }
    d := 0;
  }

  lemma {:induction false} ParsersAgree(code: string)
    requires DeckCode(code)
    ensures ValidCard(NewCard(code)) && ClientRank(code) == NewCard(code).rank + 1
  {
    assert RANK_ORDER[1..] == CLIENT_RANK_ORDER;
    assert Upper(code[0]) == code[0] != '1';
  }

  // ---- Combinations are exactly the five-card selections ----

  lemma {:induction false} CombinationsSound<T(!new)>(items: seq<T>, k: nat, f: seq<T>)
    requires Distinct(items) && f in Combinations(items, k)
    ensures |f| == k && Distinct(f) && forall x :: x in f ==> x in items
    decreases |items|
  {
    if k > 0 {
      var with := PrefixAll(items[0], Combinations(items[1..], k - 1));
      if f in with {
        var i :| 0 <= i < |with| && with[i] == f;
        var tail := Combinations(items[1..], k - 1)[i];
        CombinationsSound(items[1..], k - 1, tail);
        assert f == [items[0]] + tail;
        assert items[0] !in items[1..];
        DistinctCons(items[0], tail);
      } else {
        CombinationsSound(items[1..], k, f);
      }
    }
  }

  lemma {:induction false} CombinationsComplete<T(!new)>(items: seq<T>, pick: seq<T>) returns (f: seq<T>)
    requires Distinct(items) && Distinct(pick) && forall x :: x in pick ==> x in items
    ensures f in Combinations(items, |pick|) && forall x :: x in f <==> x in pick
    decreases |items|
  {
    DistinctWithin(pick, items);
    if pick == [] {
      f := [];
    } else {
      var rest := items[1..];
      if items[0] in pick {
        var i :| 0 <= i < |pick| && pick[i] == items[0];
        var others := pick[..i] + pick[i + 1..];
        assert forall x :: x in others <==> x in pick && x != items[0];
        var g := CombinationsComplete(rest, others);
        f := [items[0]] + g;
        var tails := Combinations(rest, |pick| - 1);
        var j :| 0 <= j < |tails| && tails[j] == g;
        assert PrefixAll(items[0], tails)[j] == f;
      } else {
        f := CombinationsComplete(rest, pick);
      }
    }
  }
}
