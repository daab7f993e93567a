/** The shuffle is fair: every arrangement is reached, by one sequence of choices and no other. */
module Shuffles {
  import opened Sequences
  import opened Dealing

  lemma {:induction false} ChoiceFits(choice: nat, i: nat)
    requires i > 0
    ensures choice % i < i && (choice < i ==> choice % i == choice)
  {
  }

  /** Positions from `i` on are settled. */
  lemma {:induction false} SettledStays<T>(deck: seq<T>, i: nat, random: nat -> nat, k: nat)
    requires i <= k < |deck|
    ensures Rearranged(deck, i, random)[k] == deck[k]
    decreases i
  {
    if i > 1 {
      SettledStays(Exchanged(deck, random(i - 1) % i, i - 1), i - 1, random, k);
    }
  }

  lemma {:induction false} ExchangeMoves<T>(deck: seq<T>, j: nat, i: nat)
    requires j <= i < |deck|
    ensures Exchanged(deck, j, i)[i] == deck[j] && Exchanged(deck, j, i)[i + 1..] == deck[i + 1..]
    ensures multiset(Exchanged(deck, j, i)) == multiset(deck)
  {
  }

  lemma {:induction false} FrontsAgree<T>(deck: seq<T>, target: seq<T>, i: nat)
    requires i <= |deck| == |target| && multiset(deck) == multiset(target) && deck[i..] == target[i..]
    ensures multiset(deck[..i]) == multiset(target[..i])
  {
    assert deck == deck[..i] + deck[i..] && target == target[..i] + target[i..];
    calc {
      multiset(deck[..i]);
    ==
      multiset(deck) - multiset(deck[i..]);
    ==
      multiset(target[..i]);
    }
  }

  lemma {:induction false} SameChoices<T>(deck: seq<T>, i: nat, a: nat -> nat, b: nat -> nat)
    requires i <= |deck| && forall k: nat :: k < i ==> a(k) == b(k)
    ensures Rearranged(deck, i, a) == Rearranged(deck, i, b)
    decreases i
  {
    if i > 1 {
      SameChoices(Exchanged(deck, a(i - 1) % i, i - 1), i - 1, a, b);
    }
  }

  /** Any arrangement of the first `i` cards can come out. */
  lemma {:induction false} Reaches<T(!new)>(deck: seq<T>, i: nat, target: seq<T>) returns (random: nat -> nat)
    requires i <= |deck| == |target| && multiset(deck) == multiset(target) && deck[i..] == target[i..]
    ensures Rearranged(deck, i, random) == target
    decreases i
  {
    FrontsAgree(deck, target, i);
    if i <= 1 {
      random := (k: nat) => 0;
      if i == 1 {
        assert deck[..1] == [deck[0]] && target[..1] == [target[0]];
        assert deck[0] in multiset(target[..1]);
        assert deck == [deck[0]] + deck[1..] && target == [target[0]] + target[1..];
      } else {
        assert deck[0..] == deck && target[0..] == target;
      }
    } else {
      assert target[i - 1] == target[..i][i - 1] && target[i - 1] in multiset(target[..i]);
      assert target[i - 1] in multiset(deck[..i]);
      var j: nat :| j < i && deck[..i][j] == target[i - 1];
      random := ReachesBy(deck, i, target, j);
    }
  }

  lemma {:induction false} ReachesBy<T(!new)>(deck: seq<T>, i: nat, target: seq<T>, j: nat) returns (random: nat -> nat)
    requires 1 < i <= |deck| == |target| && multiset(deck) == multiset(target) && deck[i..] == target[i..]
    requires j < i && deck[j] == target[i - 1]
    ensures Rearranged(deck, i, random) == target
    decreases i, 0
  {
    var next := Exchanged(deck, j, i - 1);
    ExchangeMoves(deck, j, i - 1);
    assert next[i - 1..] == [next[i - 1]] + next[i..] && target[i - 1..] == [target[i - 1]] + target[i..];
    var rest := Reaches(next, i - 1, target);
    random := (k: nat) => if k == i - 1 then j else rest(k);
    ChoiceFits(j, i);
    SameChoices(next, i - 1, rest, random);
  }

  /** Every arrangement of the deck comes out for some choices. */
  lemma {:induction false} EveryArrangement(deck: seq<string>, target: seq<string>) returns (random: nat -> nat)
    requires multiset(deck) == multiset(target)
    ensures Rearranged(deck, |deck|, random) == target
  {
    assert |deck| == |multiset(deck)| == |multiset(target)| == |target|;
    assert deck[|deck|..] == target[|deck|..];
    random := Reaches(deck, |deck|, target);
  }

  lemma {:induction false} StillDistinct<T(!new)>(deck: seq<T>, j: nat, i: nat)
    requires Distinct(deck) && j <= i < |deck|
    ensures Distinct(Exchanged(deck, j, i))
  {
    var r := Exchanged(deck, j, i);
    forall a, b | 0 <= a < b < |r| ensures r[a] != r[b] {
      var a', b' := if a == i then j else if a == j then i else a, if b == i then j else if b == j then i else b;
      assert r[a] == deck[a'] && r[b] == deck[b'] && a' != b';
    }
  }

  /** What comes to lie at the last of the positions tells the choice. */
  lemma {:induction false} LastTells<T>(deck: seq<T>, i: nat, random: nat -> nat)
    requires 0 < i <= |deck|
    ensures random(i - 1) % i < i && Rearranged(deck, i, random)[i - 1] == deck[random(i - 1) % i]
  {
    ChoiceFits(random(i - 1), i);
    if i > 1 {
      var j := random(i - 1) % i;
      ExchangeMoves(deck, j, i - 1);
      SettledStays(Exchanged(deck, j, i - 1), i - 1, random, i - 1);
    }
  }

  /** Of different cards, different choices give different arrangements: no arrangement is favoured. */
  lemma {:induction false} OneWay<T(!new)>(deck: seq<T>, i: nat, a: nat -> nat, b: nat -> nat, k: nat)
    requires Distinct(deck) && i <= |deck| && Rearranged(deck, i, a) == Rearranged(deck, i, b) && 0 < k < i
    ensures a(k) % (k + 1) == b(k) % (k + 1)
    decreases i
  {
    LastTells(deck, i, a);
    LastTells(deck, i, b);
    var j := a(i - 1) % i;
    assert j == b(i - 1) % i;
    if k < i - 1 {
      StillDistinct(deck, j, i - 1);
      OneWay(Exchanged(deck, j, i - 1), i - 1, a, b, k);
    }
  }
}
