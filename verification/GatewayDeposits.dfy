/** Deposits through the payment gateway: events arrive late, twice or out of order, and the money arrives once. */
module GatewayDeposits {
  import opened Options
  import opened Text

  const MAX_INT64 := 0x7fff_ffff_ffff_ffff

  datatype Status = Pending | Credited | Failed | Cancelled | Expired

  datatype Deposit = Deposit(user: int, amount: int, status: Status, transaction: Option<nat>)

  // One ledger row per credit.
  datatype Entry = Entry(user: int, amount: int, reference: string)

  datatype Event = Event(name: string, reference: string, amount: string)

  function StatusForEvent(name: string): Option<Status> {
    match name
    case "payment.succeeded" => Some(Credited)
    case "payment.failed" => Some(Failed)
    case "payment.cancelled" => Some(Cancelled)
    case "payment.expired" => Some(Expired)
    case _ => None
  }

  // ---- Amounts ----

  /** The part before the first point, and the part after it. */
  function Cut(s: string): (string, string) {
    if s == [] then ("", "")
    else if s[0] == '.' then ("", s[1..])
    else var (whole, fraction) := Cut(s[1..]); ([s[0]] + whole, fraction)
  }

  predicate Digits(s: string) {
    forall i :: 0 <= i < |s| ==> '0' <= s[i] <= '9'
  }

  function Number(s: string): nat
    requires Digits(s)
  {
    if s == [] then 0 else Number(s[..|s| - 1]) * 10 + (s[|s| - 1] as int - '0' as int)
  }

  /** A decimal integer with an optional sign, if it fits 64 bits. */
  function ParseInt(s: string): Option<int> {
    var digits := if s != [] && (s[0] == '+' || s[0] == '-') then s[1..] else s;
    if digits == [] || !Digits(digits) then None
    else
      var n: int := Number(digits);
      var value := if s[0] == '-' then -n else n;
      if -MAX_INT64 - 1 <= value <= MAX_INT64 then Some(value) else None
  }

  predicate Zeros(s: string) {
    forall i :: 0 <= i < |s| ==> s[i] == '0'
  }

  function ParseWholeETB(amount: string): Option<int> {
    var trimmed := TrimSpace(amount);
    if trimmed == "" then None
    else
      var (whole, fraction) := Cut(trimmed);
      if !Zeros(fraction) then None else ParseInt(whole)
  }

  function Decimal(n: nat): string
    decreases n
  {
    (if n < 10 then [] else Decimal(n / 10)) + [('0' as int + n % 10) as char]
  }

  lemma {:induction false} DecimalDigits(n: nat)
    ensures Decimal(n) != [] && Digits(Decimal(n)) && Number(Decimal(n)) == n
    decreases n
  {
    if n >= 10 {
      DecimalDigits(n / 10);
    }
    var front := if n < 10 then [] else Decimal(n / 10);
    assert Decimal(n)[..|Decimal(n)| - 1] == front;
  }

  lemma {:induction false} CutsDigits(digits: string, tail: string)
    requires Digits(digits) && (tail == "" || tail[0] == '.')
    ensures Cut(digits + tail) == (digits, if tail == "" then "" else tail[1..])
  {
    if digits == [] {
      assert digits + tail == tail;
    } else {
      CutsDigits(digits[1..], tail);
      assert (digits + tail)[1..] == digits[1..] + tail;
      assert digits == [digits[0]] + digits[1..];
    }
  }

  /** Every whole amount that fits is read back, with or without spaces around it and zeros behind the point; anything
      else behind the point, or a larger number, is no amount. */
  lemma {:induction false} WholeAmounts(before: string, n: nat, tail: string, after: string)
    requires forall i :: 0 <= i < |before| ==> IsSpace(before[i])
    requires forall i :: 0 <= i < |after| ==> IsSpace(after[i])
    requires tail == "" || (tail[0] == '.' && Digits(tail[1..]))
    ensures ParseWholeETB(before + (Decimal(n) + tail) + after)
         == if n < 0x8000_0000_0000_0000 && (tail == "" || Zeros(tail[1..])) then Some(n) else None
  {
    var digits := Decimal(n);
    DecimalDigits(n);
    assert (digits + tail)[0] == digits[0];
    Trims(before, digits + tail, after);
    CutsDigits(digits, tail);
    ReadsNumber(digits);
  }

  lemma {:induction false} ReadsNumber(digits: string)
    requires digits != [] && Digits(digits)
    ensures ParseInt(digits) == if Number(digits) <= MAX_INT64 then Some(Number(digits)) else None
  {
    assert digits[0] != '+' && digits[0] != '-';
  }

  // ---- One event ----

  datatype Db = Db(deposits: map<string, Deposit>, wallets: map<int, int>, ledger: seq<Entry>)

  /** The gateway's word does not contradict the stored amount. */
  predicate Agrees(e: Event, d: Deposit) {
    var reported := ParseWholeETB(e.amount);
    reported.None? || reported.value == d.amount
  }

  function Credit(db: Db, reference: string, d: Deposit): Db
    requires d.user in db.wallets
  {
    Db(db.deposits[reference := d.(status := Credited, transaction := Some(|db.ledger|))],
       db.wallets[d.user := db.wallets[d.user] + d.amount],
       db.ledger + [Entry(d.user, d.amount, reference)])
  }

  function Applied(db: Db, e: Event): Db {
    var reference, target := TrimSpace(e.reference), StatusForEvent(e.name);
    if reference == "" || target.None? || reference !in db.deposits then db
    else
      var d := db.deposits[reference];
      if d.status == Credited then db
      else if target.value != Credited then
        if d.status == Pending
        then db.(deposits := db.deposits[reference := d.(status := target.value, transaction := None)])
        else db
      else if !Agrees(e, d) || d.amount <= 0 || d.user !in db.wallets then db
      else Credit(db, reference, d)
  }

  class GatewayDepositService {
    var deposits: map<string, Deposit>
    var wallets: map<int, int>
    var ledger: seq<Entry>

    ghost function View(): Db
      reads this
    {
      Db(deposits, wallets, ledger)
    }

    method ApplyEvent(e: Event)
      modifies this
      ensures View() == Applied(old(View()), e)
    {
      var reference := TrimSpace(e.reference);
      if reference == "" {
        return;
      }
      var target := StatusForEvent(e.name);
      if target.None? || reference !in deposits {
        return;
      }
      var row := deposits[reference];
      if row.status == Credited || (target.value != Credited && row.status != Pending) {
        return;
      }
      var resolved := row.(status := target.value, transaction := None);
      if target.value == Credited {
        var reported := ParseWholeETB(e.amount);
        if (reported.Some? && reported.value != row.amount) || row.amount <= 0 || row.user !in wallets {
          return;
        }
        resolved := resolved.(transaction := Some(|ledger|));
        MoveWallet(row.user, row.amount, reference);
      }
      deposits := deposits[reference := resolved];
    }

    /** Moves a wallet and records the entry. */
    method MoveWallet(user: int, delta: int, reference: string)
      requires user in wallets
      modifies this`wallets, this`ledger
      ensures wallets == old(wallets)[user := old(wallets)[user] + delta]
      ensures ledger == old(ledger) + [Entry(user, delta, reference)]
    {
      wallets := wallets[user := wallets[user] + delta];
      ledger := ledger + [Entry(user, delta, reference)];
    }
  }

  // ---- Runs ----

  function ApplyAll(db: Db, events: seq<Event>): Db
    decreases |events|
  {
    if events == [] then db else ApplyAll(Applied(db, events[0]), events[1..])
  }

  /** A success report for the deposit that does not contradict its amount. */
  predicate Pays(e: Event, reference: string, amount: int) {
    && TrimSpace(e.reference) == reference && StatusForEvent(e.name) == Some(Credited)
    && (ParseWholeETB(e.amount) == None || ParseWholeETB(e.amount) == Some(amount))
  }

  /** How often the ledger credits a reference. */
  function Credits(ledger: seq<Entry>, reference: string): nat {
    if ledger == [] then 0 else (if ledger[0].reference == reference then 1 else 0) + Credits(ledger[1..], reference)
  }

  /** What the ledger credits a user. */
  function CreditedTo(ledger: seq<Entry>, user: int): int {
    if ledger == [] then 0 else (if ledger[0].user == user then ledger[0].amount else 0) + CreditedTo(ledger[1..], user)
  }

  lemma {:induction false} CreditsSnoc(ledger: seq<Entry>, e: Entry, reference: string, user: int)
    ensures Credits(ledger + [e], reference) == Credits(ledger, reference) + if e.reference == reference then 1 else 0
    ensures CreditedTo(ledger + [e], user) == CreditedTo(ledger, user) + if e.user == user then e.amount else 0
  {
    if ledger == [] {
      assert ledger + [e] == [e];
    } else {
      CreditsSnoc(ledger[1..], e, reference, user);
      assert (ledger + [e])[1..] == ledger[1..] + [e];
    }
  }

  /** Deposits as `Start` leaves them, once any credit has been made exactly once. */
  ghost predicate Booked(db: Db) {
    && (forall r :: r in db.deposits ==> r != "" && db.deposits[r].amount > 0 && db.deposits[r].user in db.wallets)
    && (forall r :: r in db.deposits ==>
          Credits(db.ledger, r) == if db.deposits[r].status == Credited then 1 else 0)
    && (forall r :: r !in db.deposits ==> Credits(db.ledger, r) == 0)
    && (forall r :: r in db.deposits && db.deposits[r].status == Credited ==>
          var t := db.deposits[r].transaction;
          t.Some? && t.value < |db.ledger|
              && db.ledger[t.value] == Entry(db.deposits[r].user, db.deposits[r].amount, r))
  }

  /** Only the wallet of the credited user moves, by what its ledger row says. */
  ghost predicate WalletsFollow(before: Db, after: Db) {
    && before.wallets.Keys == after.wallets.Keys
    && forall u :: u in before.wallets ==>
         after.wallets[u] - CreditedTo(after.ledger, u) == before.wallets[u] - CreditedTo(before.ledger, u)
  }

  lemma {:induction false} EventKeeps(db: Db, e: Event)
    requires Booked(db)
    ensures Booked(Applied(db, e)) && WalletsFollow(db, Applied(db, e))
    ensures Applied(db, e).deposits.Keys == db.deposits.Keys
  {
    var reference := TrimSpace(e.reference);
    if reference in db.deposits {
      var d := db.deposits[reference];
      forall r, u ensures var entry := Entry(d.user, d.amount, reference);
        && Credits(db.ledger + [entry], r) == Credits(db.ledger, r) + (if reference == r then 1 else 0)
        && CreditedTo(db.ledger + [entry], u) == CreditedTo(db.ledger, u) + (if d.user == u then d.amount else 0)
      {
        CreditsSnoc(db.ledger, Entry(d.user, d.amount, reference), r, u);
      }
    }
  }

  /** What one event does to one deposit. */
  lemma {:induction false} EventOn(db: Db, e: Event, reference: string)
    requires Booked(db) && reference in db.deposits
    ensures var d, d' := db.deposits[reference], Applied(db, e).deposits[reference];
      && d'.user == d.user && d'.amount == d.amount
      && (d'.status == Credited <==> d.status == Credited || Pays(e, reference, d.amount))
  {
  }

  predicate AnyPays(events: seq<Event>, reference: string, amount: int) {
    exists i :: 0 <= i < |events| && Pays(events[i], reference, amount)
  }

  /** Credited exactly when some event paid, and then exactly once, for exactly the stored amount. */
  lemma {:induction false} CreditedOnce(db: Db, events: seq<Event>, reference: string)
    requires Booked(db) && reference in db.deposits
    ensures var r := ApplyAll(db, events);
      && Booked(r) && reference in r.deposits && WalletsFollow(db, r)
      && r.deposits[reference].user == db.deposits[reference].user
      && r.deposits[reference].amount == db.deposits[reference].amount
      && (r.deposits[reference].status == Credited
          <==> db.deposits[reference].status == Credited || AnyPays(events, reference, db.deposits[reference].amount))
    decreases |events|
  {
    if events != [] {
      var next, amount := Applied(db, events[0]), db.deposits[reference].amount;
      EventKeeps(db, events[0]);
      EventOn(db, events[0], reference);
      CreditedOnce(next, events[1..], reference);
      AnyCons(events, reference, amount);
    }
  }

  lemma {:induction false} AnyCons(events: seq<Event>, reference: string, amount: int)
    requires events != []
    ensures AnyPays(events, reference, amount) <==>
      Pays(events[0], reference, amount) || AnyPays(events[1..], reference, amount)
  {
    if AnyPays(events, reference, amount) {
      var i :| 0 <= i < |events| && Pays(events[i], reference, amount);
      assert i > 0 ==> events[1..][i - 1] == events[i];
    }
    if AnyPays(events[1..], reference, amount) {
      var i :| 0 <= i < |events[1..]| && Pays(events[1..][i], reference, amount);
      assert events[i + 1] == events[1..][i];
    }
  }

  /** The order of the events, and repeating any of them, makes no difference to what is credited. */
  lemma {:induction false} OrderIrrelevant(db: Db, a: seq<Event>, b: seq<Event>, reference: string)
    requires Booked(db) && reference in db.deposits && forall e :: e in a <==> e in b
    ensures var x, y := ApplyAll(db, a), ApplyAll(db, b);
      && reference in x.deposits && reference in y.deposits
      && (x.deposits[reference].status == Credited <==> y.deposits[reference].status == Credited)
      && Credits(x.ledger, reference) == Credits(y.ledger, reference)
  {
    CreditedOnce(db, a, reference);
    CreditedOnce(db, b, reference);
    var amount := db.deposits[reference].amount;
    SamePays(a, b, reference, amount);
    SamePays(b, a, reference, amount);
  }

  lemma {:induction false} SamePays(a: seq<Event>, b: seq<Event>, reference: string, amount: int)
    requires forall e :: e in a ==> e in b
    ensures AnyPays(a, reference, amount) ==> AnyPays(b, reference, amount)
  {
    if AnyPays(a, reference, amount) {
      var i :| 0 <= i < |a| && Pays(a[i], reference, amount);
      assert a[i] in a && a[i] in b;
      var j :| 0 <= j < |b| && b[j] == a[i];
    }
  }

  /** What an event leaves of a pending deposit: the words of the gateway, one by one. */
  lemma {:induction false} PendingBecomes(db: Db, e: Event, r: string)
    requires Booked(db) && r in db.deposits && db.deposits[r].status == Pending
    ensures r in Applied(db, e).deposits
    ensures var d, after := db.deposits[r], Applied(db, e).deposits[r];
      if TrimSpace(e.reference) != r then after == d
      else if e.name == "payment.failed" then after == d.(status := Failed, transaction := None)
      else if e.name == "payment.cancelled" then after == d.(status := Cancelled, transaction := None)
      else if e.name == "payment.expired" then after == d.(status := Expired, transaction := None)
      else if e.name == "payment.succeeded" && ParseWholeETB(e.amount) in {None, Some(d.amount)} then
        after == d.(status := Credited, transaction := Some(|db.ledger|))
      else after == d
  {
  }

  /** A closed deposit is only ever reopened by a payment, and a credited one never changes. */
  lemma {:induction false} ClosedStays(db: Db, e: Event, r: string)
    requires Booked(db) && r in db.deposits && db.deposits[r].status != Pending
    ensures r in Applied(db, e).deposits
    ensures Applied(db, e).deposits[r] == db.deposits[r]
            || (db.deposits[r].status != Credited && e.name == "payment.succeeded"
                && TrimSpace(e.reference) == r && Applied(db, e).deposits[r].status == Credited)
  {
  }
}
