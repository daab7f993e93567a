/** What each category pass of the server's solver finds in a sorted pool, stated without its loops. */
module Greedy {
  import opened Cards

  function Take<T>(s: seq<T>, n: nat): (r: seq<T>)
    ensures r <= s && |r| == if n <= |s| then n else |s|
  {
    if n <= |s| then s[..n] else s
  }

  predicate HasRank(pool: seq<Card>, r: int) {
    exists i :: 0 <= i < |pool| && pool[i].rank == r
  }

  predicate StraightFrom(pool: seq<Card>, hi: int) {
    HasRank(pool, hi) && HasRank(pool, hi - 1) && HasRank(pool, hi - 2) && HasRank(pool, hi - 3)
        && HasRank(pool, hi - 4)
  }

  predicate Wheel(pool: seq<Card>) {
    HasRank(pool, 13) && HasRank(pool, 1) && HasRank(pool, 2) && HasRank(pool, 3) && HasRank(pool, 4)
  }

  ghost predicate HasStraight(pool: seq<Card>) {
    Wheel(pool) || exists hi :: StraightFrom(pool, hi)
  }

  /** The highest ordinary straight of the pool or, failing any, the wheel with its ace last. */
  ghost predicate TopStraight(pool: seq<Card>, cards: seq<Card>) {
    && |cards| == 5
    && (forall c :: c in cards ==> c in pool)
    && var hi := cards[0].rank;
       if exists h :: StraightFrom(pool, h) then
         && (forall h :: StraightFrom(pool, h) ==> h <= hi)
         && Ranks(cards) == [hi, hi - 1, hi - 2, hi - 3, hi - 4]
       else Ranks(cards) == [4, 3, 2, 1, 13]
  }

  ghost predicate TopExactly(pool: seq<Card>, n: nat, a: int) {
    Count(pool, a) == n && forall r :: r > a ==> Count(pool, r) != n
  }

  /** The highest rank but `skip` that the pool holds at least twice. */
  ghost predicate TopPaired(pool: seq<Card>, skip: int, b: int) {
    b != skip && Count(pool, b) >= 2 && forall r :: r > b && r != skip ==> Count(pool, r) < 2
  }

  ghost predicate Possible(k: int, pool: seq<Card>) {
    match k
    case 9 => exists s :: |OfSuit(pool, s)| >= 5 && HasStraight(OfSuit(pool, s))
    case 8 => exists r :: Count(pool, r) == 4
    case 7 => exists a, b :: TopExactly(pool, 3, a) && b != a && Count(pool, b) >= 2
    case 6 => exists s :: |OfSuit(pool, s)| >= 5
    case 5 => HasStraight(pool)
    case 4 => exists r :: Count(pool, r) == 3
    case 3 => exists a, b :: a != b && Count(pool, a) >= 2 && Count(pool, b) >= 2
    case 2 => exists r :: Count(pool, r) == 2
    case _ => true
  }

  /** `cards` is what the category-`k` pass collects from the sorted pool when it succeeds. */
  ghost predicate Found(k: int, pool: seq<Card>, cards: seq<Card>) {
    && cards != []
    && var a := cards[0].rank;
       var group := OfRank(pool, a);
       match k
       case 9 => TopStraight(OfSuit(pool, cards[0].suit), cards) && |OfSuit(pool, cards[0].suit)| >= 5
       case 8 => TopExactly(pool, 4, a) && cards == group + Take(Without(pool, group), 1)
       case 7 => && TopExactly(pool, 3, a) && |cards| >= 5
                 && TopPaired(pool, a, cards[3].rank) && cards == group + OfRank(pool, cards[3].rank)
       case 6 => |OfSuit(pool, cards[0].suit)| >= 5 && cards == OfSuit(pool, cards[0].suit)[..5]
       case 5 => TopStraight(pool, cards)
       case 4 => TopExactly(pool, 3, a) && cards == group + Take(Without(pool, group), 2)
       case 3 => && |cards| > |group| && TopPaired(pool, 0 - 1, a)
                 && var b := cards[|group|].rank;
                    var pairs := group + OfRank(pool, b);
                    TopPaired(pool, a, b) && cards == pairs + Take(Without(pool, pairs), 1)
       case 2 => TopExactly(pool, 2, a) && cards == group + Take(Without(pool, group), 3)
       case _ => cards == Take(pool, 5)
  }
}
