/** The bots' single-number score of a solved hand, and the count of card combinations. */
module HandScores {
  import opened Arithmetic
  import opened Cards
  import opened SolverTheorem
  import opened HandSolver

  // ---- A hand as a number ----

  /** The ranks as digits behind the point, in base 15. */
  function Fraction(cards: seq<Card>): real {
    if cards == [] then 0.0 else (cards[0].rank as real + Fraction(cards[1..])) / 15.0
  }

  ghost predicate Digits(cards: seq<Card>) {
    forall i :: 0 <= i < |cards| ==> 0 <= cards[i].rank <= ACE
  }

  method HandTiebreaker(h: Hand) returns (value: real)
    ensures value == Fraction(h.cards)
  {
    value := 0.0;
    var factor := 1.0 / 15.0;
    assert h.cards[0..] == h.cards;
    for i := 0 to |h.cards|
      invariant Fraction(h.cards) == value + 15.0 * factor * Fraction(h.cards[i..])
    {
      NextDigit(factor, h.cards[i].rank as real, Fraction(h.cards[i + 1..]));
      assert h.cards[i..][1..] == h.cards[i + 1..];
      value := value + h.cards[i].rank as real * factor;
      factor := factor / 15.0;
    }
    assert h.cards[|h.cards|..] == [];
  }

  lemma {:induction false} NextDigit(factor: real, digit: real, rest: real)
    ensures 15.0 * factor * ((digit + rest) / 15.0) == digit * factor + 15.0 * (factor / 15.0) * rest
  {
    assert 15.0 * factor * ((digit + rest) / 15.0) == factor * (digit + rest);
    assert factor * (digit + rest) == factor * digit + factor * rest;
  }

  /** Category and fraction; no hand scores zero. */
  method SolvedHandScore(h: Hand?) returns (score: real)
    ensures score == if h == null then 0.0 else Score(h.rank, h.cards)
  {
    if h == null {
      return 0.0;
    }
    var fraction := HandTiebreaker(h);
    return h.rank as real + fraction;
  }

  function Score(rank: int, cards: seq<Card>): real {
    rank as real + Fraction(cards)
  }

  /** However many digits follow, they add less than one unit of the digit before them. */
  lemma {:induction false} TailBound(cards: seq<Card>)
    requires Digits(cards)
    ensures 0.0 <= Fraction(cards) < 13.0 / 14.0
  {
    if cards != [] {
      TailBound(cards[1..]);
    }
  }

  /** The first difference in rank decides the fractions, whatever follows it. */
  lemma {:induction false} BetterFraction(h: seq<Card>, o: seq<Card>)
    requires Digits(h) && Digits(o) && CompareFrom(h, o, 0) < 0
    ensures Fraction(h) > Fraction(o)
  {
    TailBound(h[1..]);
    TailBound(o[1..]);
    if h[0].rank == o[0].rank {
      TailsDecide(h, o, 1, 5);
      BetterTail(h[1..], o[1..], 4);
    }
  }

  /** `CompareFrom` reading only the first `n` cards. */
  function CompareFirst(h: seq<Card>, o: seq<Card>, n: nat): int {
    if n == 0 || h == [] || o == [] then 0
    else if h[0].rank < o[0].rank then 1
    else if h[0].rank > o[0].rank then -1
    else CompareFirst(h[1..], o[1..], n - 1)
  }

  lemma {:induction false} TailsDecide(h: seq<Card>, o: seq<Card>, i: nat, end: nat)
    requires i <= end == 5 && i <= |h| && i <= |o|
    ensures CompareFrom(h, o, i) == CompareFirst(h[i..], o[i..], end - i)
    decreases end - i
  {
    if i < end && i < |h| && i < |o| && h[i].rank == o[i].rank {
      TailsDecide(h, o, i + 1, end);
      assert h[i..][1..] == h[i + 1..] && o[i..][1..] == o[i + 1..];
    }
  }

  lemma {:induction false} BetterTail(h: seq<Card>, o: seq<Card>, n: nat)
    requires Digits(h) && Digits(o) && CompareFirst(h, o, n) < 0
    ensures Fraction(h) > Fraction(o)
  {
    TailBound(h[1..]);
    TailBound(o[1..]);
    if h[0].rank == o[0].rank {
      BetterTail(h[1..], o[1..], n - 1);
    }
  }

  lemma {:induction false} EqualFraction(h: seq<Card>, o: seq<Card>)
    requires |h| == |o| <= 5 && CompareFirst(h, o, |h|) == 0
    ensures Fraction(h) == Fraction(o)
  {
    if h != [] {
      EqualFraction(h[1..], o[1..]);
    }
  }

  /** A better hand scores strictly higher; hands of five cards that tie score the same. */
  lemma {:induction false} ScoreKeepsOrder(j: int, h: seq<Card>, k: int, o: seq<Card>)
    requires Digits(h) && Digits(o)
    ensures CompareHands(j, h, k, o) < 0 ==> Score(j, h) > Score(k, o)
    ensures |h| == |o| == 5 && CompareHands(j, h, k, o) == 0 ==> Score(j, h) == Score(k, o)
  {
    TailBound(h);
    TailBound(o);
    if j == k {
      if CompareFrom(h, o, 0) < 0 {
        BetterFraction(h, o);
      } else if |h| == |o| == 5 && CompareFrom(h, o, 0) == 0 {
        TailsDecide(h, o, 0, 5);
        assert h[0..] == h && o[0..] == o;
        EqualFraction(h, o);
      }
    }
  }

  /** On five cards the score decides exactly as the comparison does. */
  lemma {:induction false} ScoreIsComparison(j: int, h: seq<Card>, k: int, o: seq<Card>)
    requires Digits(h) && Digits(o) && |h| == |o| == 5
    ensures CompareHands(j, h, k, o) < 0 <==> Score(j, h) > Score(k, o)
    ensures CompareHands(j, h, k, o) == 0 <==> Score(j, h) == Score(k, o)
  {
    ScoreKeepsOrder(j, h, k, o);
    ScoreKeepsOrder(k, o, j, h);
    CompareHandsOpposite(j, h, k, o);
  }

  // ---- Counting combinations ----

  /** The binomial coefficient, by Pascal's rule. */
  function Choose(n: nat, k: nat): nat {
    if k == 0 then 1 else if n == 0 then 0 else Choose(n - 1, k - 1) + Choose(n - 1, k)
  }

  lemma {:induction false} ChooseTooMany(n: nat, k: nat)
    requires k > n
    ensures Choose(n, k) == 0
  {
    if n > 0 {
      ChooseTooMany(n - 1, k - 1);
      ChooseTooMany(n - 1, k);
    }
  }

  lemma {:induction false} ChooseAll(n: nat)
    ensures Choose(n, n) == 1
  {
    if n > 0 {
      ChooseAll(n - 1);
      ChooseTooMany(n - 1, n);
    }
  }

  lemma {:induction false} ChooseSymmetric(n: nat, k: nat)
    requires k <= n
    ensures Choose(n, k) == Choose(n, n - k)
  {
    if k == 0 || k == n {
      ChooseAll(n);
    } else {
      ChooseSymmetric(n - 1, k - 1);
      ChooseSymmetric(n - 1, k);
    }
  }

  /** The absorption rule: the step of the loop, with no remainder. */
  lemma {:induction false} Absorb(n: nat, k: nat)
    requires n >= 1 && k >= 1
    ensures Choose(n, k) * k == Choose(n - 1, k - 1) * n
  {
    if n == 1 {
      if k > 1 { ChooseTooMany(1, k); ChooseTooMany(0, k - 1); }
    } else if k > 1 {
      Absorb(n - 1, k - 1);
      Absorb(n - 1, k);
      AbsorbSum(Choose(n - 2, k - 2), Choose(n - 2, k - 1), Choose(n - 1, k - 1), Choose(n - 1, k), n, k);
    } else {
      Absorb(n - 1, 1);
    }
  }

  lemma {:induction false} AbsorbSum(a: int, b: int, c: int, d: int, n: int, k: int)
    requires c == a + b && c * (k - 1) == a * (n - 1) && d * k == b * (n - 1)
    ensures (c + d) * k == c * n
  {
    assert (c + d) * k == c * (k - 1) + c + d * k;
    assert a * (n - 1) + b * (n - 1) == (a + b) * (n - 1);
    assert c * n == c * (n - 1) + c;
  }

  method CombinationCount(n: int, k: int) returns (result: int)
    ensures result == if k < 0 || k > n then 0 else Choose(n, k)
  {
    if k < 0 || k > n {
      return 0;
    }
    var kk := k;
    if n - k < kk {
      kk := n - k;
    }
    ChooseSymmetric(n, k);
    result := 1;
    for i := 1 to kk + 1
      invariant result == Choose(n - kk + i - 1, i - 1)
    {
      Absorb(n - kk + i, i);
      ExactDivision(Choose(n - kk + i, i), i, result * (n - kk + i));
      result := result * (n - kk + i) / i;
    }
  }

  lemma {:induction false} ExactDivision(quotient: int, divisor: int, product: int)
    requires divisor > 0 && quotient * divisor == product
    ensures product / divisor == quotient
  {
    var d := product / divisor - quotient;
    assert product == divisor * (product / divisor) + product % divisor;
    assert d * divisor == -(product % divisor);
    Multiple(d, divisor);
  }
}
