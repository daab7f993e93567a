/** The send throttle for one-time codes: one row per phone and purpose, a cooldown, a cap per window, and a sweep. */
module OtpThrottle {

  // The clock ticks in nanoseconds; rows hold whole seconds.
  const SECOND := 1_000_000_000
  const COOLDOWN := 60 * SECOND
  const WINDOW := 3600 * SECOND
  const MAX_SENDS := 5

  import opened Options

  datatype Row = Row(windowStartedAt: int, lastSentAt: int, sendCount: int)

  datatype Key = Key(phone: string, purpose: string)

  // A refusal says how long to wait.
  datatype Outcome = Accepted | TooSoon(retryAfter: int) | TooMany(retryAfter: int)

  function Unix(now: int): int {
    now / SECOND
  }

  function Stamp(seconds: int): int {
    seconds * SECOND
  }

  function Consume(row: Option<Row>, now: int): (Option<Row>, Outcome) {
    match row
    case None => (Some(Row(Unix(now), Unix(now), 1)), Accepted)
    case Some(r) =>
      if now - Stamp(r.lastSentAt) < COOLDOWN then (row, TooSoon(COOLDOWN - (now - Stamp(r.lastSentAt))))
      else if now - Stamp(r.windowStartedAt) >= WINDOW then (Some(Row(Unix(now), Unix(now), 1)), Accepted)
      else if r.sendCount >= MAX_SENDS then (row, TooMany(WINDOW - (now - Stamp(r.windowStartedAt))))
      else (Some(Row(r.windowStartedAt, Unix(now), r.sendCount + 1)), Accepted)
  }

  predicate Stale(r: Row, now: int) {
    r.windowStartedAt < Unix(now - 2 * WINDOW)
  }

  function Swept(row: Option<Row>, now: int): Option<Row> {
    if row.Some? && Stale(row.value, now) then None else row
  }

  // ---- The table of rows ----

  class ThrottleStore {
    var rows: map<Key, Row>

    constructor ()
      ensures rows == map[]
    {
      rows := map[];
    }

    /** Counts a send before it is made; a refused one changes nothing. */
    method ConsumeSendAllowance(key: Key, now: int) returns (o: Outcome)
      modifies this
      ensures RowOf(rows, key) == Consume(old(RowOf(rows, key)), now).0 && o == Consume(old(RowOf(rows, key)), now).1
      ensures forall k :: k != key ==> RowOf(rows, k) == old(RowOf(rows, k))
      ensures o != Accepted ==> rows == old(rows)
    {
      if key !in rows {
        rows := rows[key := Row(Unix(now), Unix(now), 1)];
        return Accepted;
      }
      var row := rows[key];
      var wait := COOLDOWN - (now - Stamp(row.lastSentAt));
      if wait > 0 {
        return TooSoon(wait);
      }
      if now - Stamp(row.windowStartedAt) >= WINDOW {
        rows := rows[key := Row(Unix(now), Unix(now), 1)];
        return Accepted;
      }
      if row.sendCount >= MAX_SENDS {
        return TooMany(WINDOW - (now - Stamp(row.windowStartedAt)));
      }
      rows := rows[key := Row(row.windowStartedAt, Unix(now), row.sendCount + 1)];
      return Accepted;
    }

    method SweepStale(now: int)
      modifies this
      ensures forall k :: RowOf(rows, k) == Swept(old(RowOf(rows, k)), now)
    {
      rows := map k | k in rows && !Stale(rows[k], now) :: rows[k];
    }
  }

  function RowOf(rows: map<Key, Row>, key: Key): Option<Row> {
    if key in rows then Some(rows[key]) else None
  }

  // ---- Runs ----

  datatype Event = Send(at: int) | Sweep(at: int)

  predicate Clock(events: seq<Event>, from: int) {
    events == [] || (from <= events[0].at && Clock(events[1..], events[0].at))
  }

  function After(row: Option<Row>, e: Event): Option<Row> {
    match e
    case Send(at) => Consume(row, at).0
    case Sweep(at) => Swept(row, at)
  }

  /** The answers to the sends, in order. */
  function Outcomes(row: Option<Row>, events: seq<Event>): seq<Outcome>
    decreases |events|
  {
    if events == [] then []
    else (if events[0].Send? then [Consume(row, events[0].at).1] else []) + Outcomes(After(row, events[0]), events[1..])
  }

  /** The times of the accepted sends. */
  function Sent(row: Option<Row>, events: seq<Event>): seq<int>
    decreases |events|
  {
    if events == [] then []
    else
      (if events[0].Send? && Consume(row, events[0].at).1.Accepted? then [events[0].at] else [])
      + Sent(After(row, events[0]), events[1..])
  }

  function WithoutSweeps(events: seq<Event>): seq<Event> {
    if events == [] then []
    else (if events[0].Send? then [events[0]] else []) + WithoutSweeps(events[1..])
  }

  // ---- Sweeping is invisible ----

  lemma {:induction false} UnixBounds(now: int)
    ensures Stamp(Unix(now)) <= now < Stamp(Unix(now)) + SECOND
  {
  }

  lemma {:induction false} UnixMonotone(a: int, b: int)
    requires a <= b
    ensures Unix(a) <= Unix(b)
  {
  }

  /** A row that has counted a send: the last one fell within the window. */
  predicate Sound(row: Option<Row>) {
    row.Some? ==> Stamp(row.value.lastSentAt) < Stamp(row.value.windowStartedAt) + WINDOW
  }

  lemma {:induction false} ConsumeSound(row: Option<Row>, now: int)
    requires Sound(row)
    ensures Sound(Consume(row, now).0)
  {
    UnixBounds(now);
  }

  /** The swept row is the kept one, or is gone when the kept one is too old to matter from `now` on. */
  predicate SameBehaviour(swept: Option<Row>, kept: Option<Row>, now: int) {
    swept == kept || (swept.None? && kept.Some? && Stamp(kept.value.windowStartedAt) + 2 * WINDOW <= now)
  }

  lemma {:induction false} StaleIsOld(r: Row, now: int)
    requires Stale(r, now)
    ensures Stamp(r.windowStartedAt) + 2 * WINDOW <= now
  {
    UnixBounds(now - 2 * WINDOW);
  }

  lemma {:induction false} SendsAlike(swept: Option<Row>, kept: Option<Row>, now: int)
    requires Sound(kept) && SameBehaviour(swept, kept, now)
    ensures Consume(swept, now) == Consume(kept, now)
  {
  }

  /** Whatever is swept, and whenever: every send is answered as if nothing ever were. */
  lemma {:induction false} SweepInvisible(swept: Option<Row>, kept: Option<Row>, events: seq<Event>, from: int)
    requires Clock(events, from) && Sound(kept) && SameBehaviour(swept, kept, from)
    ensures Outcomes(swept, events) == Outcomes(kept, WithoutSweeps(events))
    ensures Sent(swept, events) == Sent(kept, WithoutSweeps(events))
    decreases |events|
  {
    if events != [] {
      var e, rest := events[0], events[1..];
      match e {
        case Send(at) =>
          SendsAlike(swept, kept, at);
          ConsumeSound(kept, at);
          SweepInvisible(After(swept, e), After(kept, e), rest, at);
          assert WithoutSweeps(events)[1..] == WithoutSweeps(rest);
        case Sweep(at) =>
          if swept.Some? && Stale(swept.value, at) { StaleIsOld(swept.value, at); }
          SweepInvisible(After(swept, e), kept, rest, at);
          assert [] + WithoutSweeps(rest) == WithoutSweeps(rest);
          assert [] + Outcomes(After(swept, e), rest) == Outcomes(After(swept, e), rest);
          assert [] + Sent(After(swept, e), rest) == Sent(After(swept, e), rest);
      }
    }
  }

  // ---- Spacing and the hourly bound ----

  // `first[k]` is the number of the send that opened the window of send `k`.

  /** Send `k` follows send `k - 1` after the cooldown, in its window or in a new one once that has passed. */
  predicate Follows(times: seq<int>, first: seq<nat>, k: nat)
    requires 0 < k < |times| && |first| == |times| && first[k - 1] < |times|
  {
    && times[k] >= Stamp(Unix(times[k - 1])) + COOLDOWN
    && (first[k] == first[k - 1] || (first[k] == k && times[k] >= Stamp(Unix(times[first[k - 1]])) + WINDOW))
  }

  ghost predicate Windows(times: seq<int>, first: seq<nat>) {
    && |first| == |times|
    && (forall k :: 0 <= k < |times| ==> first[k] <= k < first[k] + MAX_SENDS && first[first[k]] == first[k])
    && (forall k :: 0 < k < |times| ==> Follows(times, first, k))
  }

  /** The row is the state of the last window. */
  ghost predicate Describes(row: Option<Row>, times: seq<int>, first: seq<nat>)
    requires |first| == |times|
  {
    var n := |times|;
    if n == 0 then row == None
    else row.Some? && first[n - 1] <= n - 1 && row.value.lastSentAt == Unix(times[n - 1])
         && row.value.windowStartedAt == Unix(times[first[n - 1]]) && row.value.sendCount == n - first[n - 1]
  }

  lemma {:induction false} WindowsSnoc(times: seq<int>, first: seq<nat>, t: int, f: nat)
    requires Windows(times, first)
    requires f <= |times| < f + MAX_SENDS && (f == |times| || first[f] == f)
    requires times != [] ==> Follows(times + [t], first + [f], |times|)
    ensures Windows(times + [t], first + [f])
  {
    var ts, fs := times + [t], first + [f];
    forall k | 0 < k < |ts| ensures Follows(ts, fs, k) {
      if k < |times| {
        assert Follows(times, first, k);
      }
    }
  }

  /** An accepted send extends the history of windows. */
  lemma {:induction false} SendExtends(row: Option<Row>, times: seq<int>, first: seq<nat>, now: int) returns (f: nat)
    requires Windows(times, first) && Describes(row, times, first) && Consume(row, now).1.Accepted?
    ensures Windows(times + [now], first + [f]) && Describes(Consume(row, now).0, times + [now], first + [f])
  {
    var n := |times|;
    if n == 0 {
      f := 0;
    } else if now - Stamp(row.value.windowStartedAt) >= WINDOW {
      f := n;
    } else {
      f := first[n - 1];
    }
    WindowsSnoc(times, first, now, f);
  }

  /** The accepted sends of any run fall into windows. */
  lemma {:induction false} RunWindows(row: Option<Row>, times: seq<int>, first: seq<nat>, events: seq<Event>)
    returns (all: seq<nat>)
    requires Windows(times, first) && Describes(row, times, first)
    requires forall i :: 0 <= i < |events| ==> events[i].Send?
    ensures Windows(times + Sent(row, events), all)
    decreases |events|
  {
    if events == [] {
      assert times + [] == times;
      all := first;
    } else {
      var now := events[0].at;
      if Consume(row, now).1.Accepted? {
        var f := SendExtends(row, times, first, now);
        all := RunWindows(After(row, events[0]), times + [now], first + [f], events[1..]);
        assert times + [now] + Sent(After(row, events[0]), events[1..]) == times + Sent(row, events);
      } else {
        all := RunWindows(row, times, first, events[1..]);
        assert [] + Sent(row, events[1..]) == Sent(row, events[1..]);
      }
    }
  }

  lemma {:induction false} Spaced(times: seq<int>, first: seq<nat>, i: nat, j: nat)
    requires Windows(times, first) && i < j < |times|
    ensures times[j] - times[i] > (j - i) * (COOLDOWN - SECOND)
    ensures times[j] >= Stamp(Unix(times[i])) + COOLDOWN
    decreases j
  {
    assert Follows(times, first, j);
    UnixBounds(times[j - 1]);
    if i < j - 1 {
      Spaced(times, first, i, j - 1);
      UnixBounds(times[i]);
      assert (j - i) * (COOLDOWN - SECOND) == (j - 1 - i) * (COOLDOWN - SECOND) + (COOLDOWN - SECOND);
    } else {
      UnixBounds(times[i]);
      assert (j - i) * (COOLDOWN - SECOND) == COOLDOWN - SECOND;
    }
  }

  /** The window after the one of send `k` starts by send `first[k] + 5`, an hour after that one was stamped. */
  lemma {:induction false} NextWindow(times: seq<int>, first: seq<nat>, k: nat) returns (b: nat)
    requires Windows(times, first) && k < |times| && first[k] + MAX_SENDS < |times|
    ensures k < b <= first[k] + MAX_SENDS && first[b] == b
    ensures times[b] >= Stamp(Unix(times[first[k]])) + WINDOW
    decreases |times| - k
  {
    assert Follows(times, first, k + 1);
    if first[k + 1] == k + 1 {
      b := k + 1;
    } else {
      b := NextWindow(times, first, k + 1);
    }
  }

  /** Ten sends in a row take at least an hour. */
  lemma {:induction false} TenSends(times: seq<int>, first: seq<nat>, i: nat)
    requires Windows(times, first) && i + 9 < |times|
    ensures times[i + 9] >= times[i] + WINDOW
  {
    var b := NextWindow(times, first, i);
    UnixBounds(times[first[i]]);
    if first[i] == i {
      Spaced(times, first, b, i + 9);
    } else {
      var c := NextWindow(times, first, b);
      UnixBounds(times[b]);
      Spaced(times, first, i, b);
      if c < i + 9 {
        Spaced(times, first, c, i + 9);
      }
    }
  }

  function CountIn(times: seq<int>, from: int): nat {
    if times == [] then 0 else (if from <= times[0] < from + WINDOW then 1 else 0) + CountIn(times[1..], from)
  }

  lemma {:induction false} CountNone(times: seq<int>, from: int)
    requires forall i :: 0 <= i < |times| ==> times[i] >= from + WINDOW
    ensures CountIn(times, from) == 0
  {
    if times != [] {
      CountNone(times[1..], from);
    }
  }

  lemma {:induction false} CountSplit(times: seq<int>, k: nat, from: int)
    requires k <= |times|
    ensures CountIn(times, from) <= k + CountIn(times[k..], from)
  {
    if k > 0 {
      CountSplit(times[1..], k - 1, from);
      assert times[1..][k - 1..] == times[k..];
    } else {
      assert times[0..] == times;
    }
  }

  /** No one-hour interval holds ten, when any ten in a row take an hour. */
  lemma {:induction false} AtMostNine(times: seq<int>, from: int)
    requires forall i, j :: 0 <= i < j < |times| ==> times[i] <= times[j]
    requires forall i :: 0 <= i && i + 9 < |times| ==> times[i + 9] >= times[i] + WINDOW
    ensures CountIn(times, from) <= 9
  {
    if times != [] {
      if from <= times[0] < from + WINDOW && |times| > 9 {
        CountSplit(times, 9, from);
        forall i | 0 <= i < |times[9..]| ensures times[9..][i] >= from + WINDOW {
          assert times[0 + 9] >= times[0] + WINDOW;
          assert times[9..][i] == times[9 + i];
        }
        CountNone(times[9..], from);
      } else if from <= times[0] < from + WINDOW {
        CountSplit(times, |times|, from);
      } else {
        AtMostNine(times[1..], from);
      }
    }
  }

  /** Stamps a minute apart. */
  predicate Apart(a: int, b: int) {
    Unix(b) >= Unix(a) + 60 && b - a > COOLDOWN - SECOND
  }

  lemma {:induction false} SpacedApart(times: seq<int>, first: seq<nat>, i: nat, j: nat)
    requires Windows(times, first) && i < j < |times|
    ensures times[i] <= times[j] && Apart(times[i], times[j])
  {
    Spaced(times, first, i, j);
    UnixMonotone(Stamp(Unix(times[i]) + 60), times[j]);
    Repeated(j - i, COOLDOWN - SECOND);
  }

  lemma {:induction false} Repeated(n: nat, step: nat)
    requires n >= 1
    ensures n * step >= step
  {
  }

  /** Over every run with a clock that never goes back, whatever is swept: accepted sends carry stamps a minute
      apart, and no half-open hour holds more than nine of them. */
  lemma {:induction false} ThrottleHolds(events: seq<Event>, start: int, from: int)
    requires Clock(events, start)
    ensures var sent := Sent(None, events);
      && (forall i, j :: 0 <= i < j < |sent| ==> Apart(sent[i], sent[j]))
      && CountIn(sent, from) <= 9
  {
    SweepInvisible(None, None, events, start);
    OnlySends(events);
    var first := RunWindows(None, [], [], WithoutSweeps(events));
    assert [] + Sent(None, events) == Sent(None, events);
    WindowsBound(Sent(None, events), first, from);
  }

  lemma {:induction false} WindowsBound(sent: seq<int>, first: seq<nat>, from: int)
    requires Windows(sent, first)
    ensures forall i, j :: 0 <= i < j < |sent| ==> Apart(sent[i], sent[j])
    ensures CountIn(sent, from) <= 9
  {
    forall i, j | 0 <= i < j < |sent| ensures sent[i] <= sent[j] && Apart(sent[i], sent[j]) {
      SpacedApart(sent, first, i, j);
    }
    forall i | 0 <= i && i + 9 < |sent| ensures sent[i + 9] >= sent[i] + WINDOW {
      TenSends(sent, first, i);
    }
    AtMostNine(sent, from);
  }

  lemma {:induction false} OnlySends(events: seq<Event>)
    ensures forall i :: 0 <= i < |WithoutSweeps(events)| ==> WithoutSweeps(events)[i].Send?
  {
    if events != [] {
      OnlySends(events[1..]);
    }
  }

  /** After a send at `a`, the next is refused as too soon exactly until a minute after the stamp of `a`. */
  lemma {:induction false} CooldownExact(row: Option<Row>, a: int, b: int)
    requires Consume(row, a).1.Accepted?
    ensures Consume(Consume(row, a).0, b).1.TooSoon? <==> b < Stamp(Unix(a)) + COOLDOWN
  {
  }

  /** The wait a refusal names is exact: until it is over the same refusal comes again. After a cap the next send is
      then accepted. */
  lemma {:induction false} WaitIsExact(row: Option<Row>, now: int, later: int)
    requires now <= later
    ensures var refused := Consume(row, now).1;
      && (refused.TooSoon? ==> (Consume(row, later).1.TooSoon? <==> later < now + refused.retryAfter))
      && (refused.TooMany? ==> (Consume(row, later).1.TooMany? <==> later < now + refused.retryAfter))
      && (refused.TooMany? && later >= now + refused.retryAfter ==> Consume(row, later).1.Accepted?)
  {
  }

  /** The stamp drops the fraction of a second, so the full minute is kept exactly after sends on a whole second. */
  lemma {:induction false} FullMinuteExactly(row: Option<Row>, a: int)
    requires Consume(row, a).1.Accepted?
    ensures (forall b :: Consume(Consume(row, a).0, b).1.TooSoon? || b - a >= COOLDOWN) <==> a == Stamp(Unix(a))
  {
    UnixBounds(a);
    forall b ensures Consume(Consume(row, a).0, b).1.TooSoon? <==> b < Stamp(Unix(a)) + COOLDOWN {
      CooldownExact(row, a, b);
    }
    var b := Stamp(Unix(a)) + COOLDOWN;
    assert !Consume(Consume(row, a).0, b).1.TooSoon?;
  }

  /** Two sends less than a minute apart, both accepted. */
  lemma {:induction false} JustUnderAMinute()
    ensures Sent(None, [Send(SECOND - 1), Send(COOLDOWN)]) == [SECOND - 1, COOLDOWN]
  {
    var events := [Send(SECOND - 1), Send(COOLDOWN)];
    assert events[1..] == [Send(COOLDOWN)];
    var row := After(None, events[0]);
    assert row == Some(Row(0, 0, 1));
    assert [Send(COOLDOWN)][1..] == [];
    assert Consume(row, COOLDOWN).1.Accepted?;
    assert Sent(row, [Send(COOLDOWN)]) == [COOLDOWN];
  }

  // ---- What is accepted ----

  /** After any history of accepted sends the next is accepted exactly if a minute has passed since the stamp of the
      last, and either the hour of its window has, or fewer than five were sent in it. */
  lemma {:induction false} AcceptedExactly(row: Option<Row>, times: seq<int>, first: seq<nat>, now: int)
    requires Windows(times, first) && Describes(row, times, first)
    ensures var n := |times|;
      Consume(row, now).1.Accepted? <==>
        || n == 0
        || (now >= (times[n - 1] / 1_000_000_000 + 60) * 1_000_000_000
            && (n - first[n - 1] < 5 || now >= (times[first[n - 1]] / 1_000_000_000 + 3600) * 1_000_000_000))
  {
    if times != [] {
      assert first[|times| - 1] <= |times| - 1;
    }
  }

  predicate AMinuteApart(times: seq<int>) {
    forall k :: 0 < k < |times| ==> times[k] >= (times[k - 1] / 1_000_000_000 + 60) * 1_000_000_000
  }

  function Sends(times: seq<int>): (events: seq<Event>)
    ensures |events| == |times| && forall i :: 0 <= i < |events| ==> events[i] == Send(times[i])
  {
    seq(|times|, i requires 0 <= i < |times| => Send(times[i]))
  }

  /** The row after a first send and others in its hour. */
  predicate OpenWindow(row: Option<Row>, start: int, last: int, count: nat) {
    row == Some(Row(Unix(start), Unix(last), count))
  }

  lemma {:induction false} RestAccepted(row: Option<Row>, start: int, last: int, count: nat, times: seq<int>)
    requires OpenWindow(row, start, last, count) && count + |times| <= 5 && AMinuteApart([last] + times)
    requires forall k :: 0 <= k < |times| ==> times[k] < (start / 1_000_000_000 + 3600) * 1_000_000_000
    ensures Sent(row, Sends(times)) == times
    decreases |times|
  {
    if times != [] {
      var all, next := [last] + times, After(row, Send(times[0]));
      assert all[1] == times[0] && all[0] == last;
      assert Consume(row, times[0]).1.Accepted? && OpenWindow(next, start, times[0], count + 1);
      assert Sends(times)[1..] == Sends(times[1..]);
      forall k | 0 < k < |[times[0]] + times[1..]|
        ensures ([times[0]] + times[1..])[k] >= (([times[0]] + times[1..])[k - 1] / 1_000_000_000 + 60) * 1_000_000_000
      {
        assert ([times[0]] + times[1..])[k] == all[k + 1] && ([times[0]] + times[1..])[k - 1] == all[k];
      }
      RestAccepted(next, start, times[0], count + 1, times[1..]);
      assert times == [times[0]] + times[1..];
    }
  }

  /** Up to five sends of one hour, a minute apart, are all accepted. */
  lemma {:induction false} FirstFive(times: seq<int>)
    requires 0 < |times| <= 5 && AMinuteApart(times)
    requires forall k :: 0 <= k < |times| ==> times[k] < (times[0] / 1_000_000_000 + 3600) * 1_000_000_000
    ensures Sent(None, Sends(times)) == times
  {
    var row := After(None, Send(times[0]));
    assert Sends(times)[1..] == Sends(times[1..]) && [times[0]] + times[1..] == times;
    RestAccepted(row, times[0], times[0], 1, times[1..]);
  }

  /** And a sixth in that hour is refused, however long after the fifth. */
  lemma {:induction false} SixthRefused(row: Option<Row>, start: int, last: int, now: int)
    requires OpenWindow(row, start, last, 5) && now < (start / 1_000_000_000 + 3600) * 1_000_000_000
    ensures !Consume(row, now).1.Accepted? && Consume(row, now).0 == row
  {
  }
}
