/** Card codes, parsed cards and the stable sort that every evaluator step relies on. */
module Cards {
  import opened Sequences

  // Index 0 is the rank character of a card back ("1B"); a deuce has rank 1 and an ace rank 13.
  const RANK_ORDER := "123456789TJQKA"
  const ACE := 13

  datatype Card = Card(value: char, suit: char, rank: int)

  function IndexIn(order: string, c: char): (i: int)
    ensures -1 <= i < |order|
    ensures i >= 0 ==> order[i] == c
    ensures i == -1 ==> c !in order
  {
    if order == [] then -1
    else if order[0] == c then 0
    else var k := IndexIn(order[1..], c); if k < 0 then -1 else k + 1
  }

  function Upper(c: char): char {
    if 'a' <= c <= 'z' then (c as int - 32) as char else c
  }

  function Lower(c: char): char {
    if 'A' <= c <= 'Z' then (c as int + 32) as char else c
  }

  function NewCard(code: string): Card {
    if |code| < 2 then Card('\0', '\0', 0)
    else Card(Upper(code[0]), Lower(code[1]), IndexIn(RANK_ORDER, Upper(code[0])))
  }

  function ParseAll(codes: seq<string>): (cs: seq<Card>)
    ensures |cs| == |codes|
    ensures forall i :: 0 <= i < |cs| ==> cs[i] == NewCard(codes[i])
  {
    seq(|codes|, i requires 0 <= i < |codes| => NewCard(codes[i]))
  }

  /** A card of the 52-card deck. */
  predicate ValidCard(c: Card) {
    && 1 <= c.rank <= ACE
    && c.value == RANK_ORDER[c.rank]
    && (c.suit == 'c' || c.suit == 'd' || c.suit == 'h' || c.suit == 's')
  }

  ghost predicate ValidCards(cs: seq<Card>) {
    Distinct(cs) && forall c :: c in cs ==> ValidCard(c)
  }

  function OfRank(cs: seq<Card>, r: int): seq<Card> {
    Filter(cs, (c: Card) => c.rank == r)
  }

  function OfSuit(cs: seq<Card>, s: char): seq<Card> {
    Filter(cs, (c: Card) => c.suit == s)
  }

  /** `cs` without the cards of `used`. */
  function Without(cs: seq<Card>, used: seq<Card>): seq<Card> {
    Filter(cs, (c: Card) => c !in used)
  }

  function Count(cs: seq<Card>, r: int): nat {
    |OfRank(cs, r)|
  }

  function Ranks(cs: seq<Card>): (r: seq<int>)
    ensures |r| == |cs| && forall i :: 0 <= i < |cs| ==> r[i] == cs[i].rank
  {
    seq(|cs|, i requires 0 <= i < |cs| => cs[i].rank)
  }

  ghost predicate Sorted(cs: seq<Card>) {
    forall i, j :: 0 <= i < j < |cs| ==> cs[i].rank >= cs[j].rank
  }

  function Insert(c: Card, cs: seq<Card>): (r: seq<Card>)
    ensures multiset(r) == multiset{c} + multiset(cs)
  {
    if cs == [] || c.rank >= cs[0].rank then [c] + cs
    else
      assert cs == [cs[0]] + cs[1..];
      [cs[0]] + Insert(c, cs[1..])
  }

  /** The stable sort by descending rank. */
  function SortCards(cs: seq<Card>): (r: seq<Card>)
    ensures multiset(r) == multiset(cs)
  {
    if cs == [] then []
    else
      assert cs == [cs[0]] + cs[1..];
      Insert(cs[0], SortCards(cs[1..]))
  }

  lemma {:induction false} InsertSorted(c: Card, cs: seq<Card>)
    requires Sorted(cs)
    ensures Sorted(Insert(c, cs))
  {
    if cs != [] && c.rank < cs[0].rank {
      InsertSorted(c, cs[1..]);
      var rest := Insert(c, cs[1..]);
      forall x | x in rest ensures x.rank <= cs[0].rank {
        assert x in multiset(rest);
        assert x == c || x in cs[1..];
      }
    }
  }

  lemma {:induction false} SortCardsSorted(cs: seq<Card>)
    ensures Sorted(SortCards(cs))
  {
    if cs != [] {
      SortCardsSorted(cs[1..]);
      InsertSorted(cs[0], SortCards(cs[1..]));
    }
  }

  lemma {:induction false} SortedIsFixed(cs: seq<Card>)
    requires Sorted(cs)
    ensures SortCards(cs) == cs
  {
    if cs != [] {
      SortedIsFixed(cs[1..]);
    }
  }

  lemma {:induction false} SameMembers(a: seq<Card>, b: seq<Card>)
    requires multiset(a) == multiset(b)
    ensures |a| == |b| && forall x :: x in a <==> x in b
  {
    assert |multiset(a)| == |multiset(b)|;
    forall x ensures x in a <==> x in b {
      assert x in a <==> x in multiset(a);
    }
  }

  /** Sorting keeps the cards and their validity. */
  lemma {:induction false} SortKeeps(cs: seq<Card>)
    ensures Sorted(SortCards(cs)) && |SortCards(cs)| == |cs|
    ensures forall x :: x in SortCards(cs) <==> x in cs
    ensures Distinct(cs) ==> Distinct(SortCards(cs))
  {
    SortCardsSorted(cs);
    SameMembers(SortCards(cs), cs);
    DistinctByCount(cs);
    DistinctByCount(SortCards(cs));
  }

  lemma {:induction false} FilterSorted(cs: seq<Card>, p: Card -> bool)
    requires Sorted(cs)
    ensures Sorted(Filter(cs, p))
  {
    if cs != [] {
      FilterSorted(cs[1..], p);
      assert forall x :: x in Filter(cs[1..], p) ==> x in cs[1..] && x.rank <= cs[0].rank;
    }
  }

  /** Fewer cards, smaller groups. */
  lemma {:induction false} CountWithin(a: seq<Card>, b: seq<Card>, r: int)
    requires Distinct(a) && forall c :: c in a ==> c in b
    ensures Count(a, r) <= Count(b, r)
  {
    FilterDistinct(a, (c: Card) => c.rank == r);
    DistinctWithin(OfRank(a, r), OfRank(b, r));
  }

  lemma {:induction false} CountAtMostFour(cs: seq<Card>, r: int)
    requires ValidCards(cs)
    ensures Count(cs, r) <= 4
    ensures Count(cs, r) > 0 ==> 1 <= r <= ACE
  {
    FilterDistinct(cs, (c: Card) => c.rank == r);
    var g := OfRank(cs, r);
    if g != [] {
      assert g[0] in g && ValidCard(g[0]);
      var v := RANK_ORDER[r];
      DistinctWithin(g, [Card(v, 'c', r), Card(v, 'd', r), Card(v, 'h', r), Card(v, 's', r)]);
    }
  }

  /** The i-th card of a sorted pool is at least the i-th of any sorted selection from it. */
  lemma {:induction false} TopDominates(picks: seq<Card>, pool: seq<Card>)
    requires Distinct(picks) && Sorted(picks) && Sorted(pool)
    requires forall c :: c in picks ==> c in pool
    ensures |picks| <= |pool|
    ensures forall i :: 0 <= i < |picks| ==> picks[i].rank <= pool[i].rank
  {
    DistinctWithin(picks, pool);
    forall i | 0 <= i < |picks| ensures picks[i].rank <= pool[i].rank {
      if picks[i].rank > pool[i].rank {
        forall c | c in picks[..i + 1] ensures c in pool[..i] {
          assert c in picks && c in pool;
          var j :| 0 <= j < |pool| && pool[j] == c;
          assert c.rank >= picks[i].rank;
          assert j < i;
          assert pool[..i][j] == c;
        }
        DistinctWithin(picks[..i + 1], pool[..i]);
      }
    }
  }
}
