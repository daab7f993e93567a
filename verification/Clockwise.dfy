/** Going round a table clockwise: who comes first. */
module Clockwise {
  import opened Arithmetic
  import opened Tables

  /** How many seats clockwise from `from` the position `x` is, at a table of `n`. */
  function Ahead(from: nat, x: nat, n: nat): int
    requires n > 0
  {
    var start := from % n;
    if x >= start then x - start else x + n - start
  }

  /** `c` is the marked position that comes first clockwise, `from` itself included. */
  predicate FirstOf(marks: seq<bool>, from: nat, c: nat) {
    && c < |marks| && marks[c]
    && forall x :: 0 <= x < |marks| && marks[x] ==> Ahead(from, c, |marks|) <= Ahead(from, x, |marks|)
  }

  lemma {:induction false} AheadAt(from: nat, k: nat, n: nat)
    requires k < n
    ensures Ahead(from, (from + k) % n, n) == k
    ensures forall x :: 0 <= x < n && Ahead(from, x, n) == k ==> x == (from + k) % n
  {
    var r := from % n;
    ModTwice(from, k, n);
    if r + k < n { ModIs(r + k, 0, r + k, n); } else { ModIs(r + k, 1, r + k - n, n); }
  }

  lemma {:induction false} AheadWithin(from: nat, x: nat, n: nat)
    requires x < n
    ensures 0 <= Ahead(from, x, n) < n
  {
  }

  /** There is only one first. */
  lemma {:induction false} FirstUnique(marks: seq<bool>, from: nat, c: nat, d: nat)
    requires FirstOf(marks, from, c) && FirstOf(marks, from, d)
    ensures c == d
  {
  }

  /** The seat before `from` comes last. */
  lemma {:induction false} SelfLast(marks: seq<bool>, d: nat, c: nat, x: nat)
    requires d < |marks| && FirstOf(marks, d + 1, c) && x < |marks| && marks[x] && x != d
    ensures c != d
  {
    var n := |marks|;
    ModSucc(d, n);
    ModIs(d, 0, d, n);
  }

  /** Whether each seat can act. */
  function CanAct(seats: seq<Seat>): (marks: seq<bool>)
    ensures |marks| == |seats|
    ensures forall i :: 0 <= i < |seats| ==> marks[i] == (!seats[i].folded && !seats[i].allIn)
  {
    seq(|seats|, i requires 0 <= i < |seats| => !seats[i].folded && !seats[i].allIn)
  }

  /** The search for the next player finds the first one clockwise. */
  lemma {:induction false} SearchFinds(seats: seq<Seat>, start: nat, done: nat, default: nat, x: nat)
    requires done <= |seats| && x < |seats| && Actionable(seats[x])
    requires forall y :: 0 <= y < |seats| && CanAct(seats)[y] ==> Ahead(start, y, |seats|) >= done
    ensures FirstOf(CanAct(seats), start, NextActionable(seats, start + done, |seats| - done, default))
    decreases |seats| - done
  {
    var n := |seats|;
    AheadWithin(start, x, n);
    assert CanAct(seats)[x];
    AheadAt(start, done, n);
    var p := (start + done) % n;
    if !Actionable(seats[p]) {
      assert !CanAct(seats)[p];
      SearchFinds(seats, start, done + 1, default, x);
    }
  }

  lemma {:induction false} NextIsFirst(seats: seq<Seat>, from: nat, default: nat, x: nat)
    requires x < |seats| && Actionable(seats[x])
    ensures FirstOf(CanAct(seats), from, NextActionable(seats, from, |seats|, default))
  {
    forall y | 0 <= y < |seats| ensures Ahead(from, y, |seats|) >= 0 {
      AheadWithin(from, y, |seats|);
    }
    SearchFinds(seats, from, 0, default, x);
  }
}
