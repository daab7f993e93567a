/** Withdrawals as database transactions whose statements interleave freely: what every order of steps keeps. */
module Withdrawals {
  import opened Options
  import opened Wallets

  datatype Status = Pending | Completed | Rejected | Cancelled

  // A row points at the ledger entries that debited it and, if it was paid back, refunded it.
  datatype Row = Row(user: nat, amount: int, status: Status, debit: nat, refund: Option<nat>)

  datatype Kind = Withdrawal | Refund | Other

  datatype Entry = Entry(user: nat, amount: int, kind: Kind)

  // What is committed.
  datatype Db = Db(wallets: seq<int>, rows: seq<Row>, ledger: seq<Entry>)

  // What an open transaction has done so far, and nobody else sees.
  datatype Txn =
    | Requesting(user: nat, amount: int, stage: RequestStage)
    | Refunding(row: nat, status: Status, done: RefundStage)

  datatype RequestStage = Begun | Checked | Debited | Filed

  datatype RefundStage = Opened | Resolved | Credited

  datatype System = System(db: Db, txns: map<nat, Txn>)

  predicate HasPending(rows: seq<Row>, user: nat) {
    exists i :: 0 <= i < |rows| && rows[i].user == user && rows[i].status == Pending
  }

  // ---- Row locks, held from a write to the end of the transaction ----

  predicate HoldsWallet(db: Db, t: Txn, user: nat) {
    match t
    case Requesting(u, _, stage) => u == user && (stage == Debited || stage == Filed)
    case Refunding(row, _, done) => row < |db.rows| && db.rows[row].user == user && done == Credited
  }

  predicate HoldsRow(t: Txn, row: nat) {
    t.Refunding? && t.row == row && t.done != Opened
  }

  /** Writes the user's entry of the index on pending rows. */
  predicate HoldsSlot(db: Db, t: Txn, user: nat) {
    match t
    case Requesting(u, _, stage) => u == user && stage == Filed
    case Refunding(row, _, done) => row < |db.rows| && db.rows[row].user == user && done != Opened
  }

  predicate WalletFree(s: System, x: nat, user: nat) {
    forall y :: y in s.txns && y != x ==> !HoldsWallet(s.db, s.txns[y], user)
  }

  predicate RowFree(s: System, x: nat, row: nat) {
    forall y :: y in s.txns && y != x ==> !HoldsRow(s.txns[y], row)
  }

  predicate SlotFree(s: System, x: nat, user: nat) {
    forall y :: y in s.txns && y != x ==> !HoldsSlot(s.db, s.txns[y], user)
  }

  // ---- Commits ----

  function FileRequest(db: Db, user: nat, amount: int): Db
    requires user < |db.wallets|
  {
    Db(Add(db.wallets, user, -amount), db.rows + [Row(user, amount, Pending, |db.ledger|, None)],
       db.ledger + [Entry(user, -amount, Withdrawal)])
  }

  function PayBack(db: Db, row: nat, status: Status): Db
    requires row < |db.rows| && db.rows[row].user < |db.wallets|
  {
    var r := db.rows[row];
    Db(Add(db.wallets, r.user, r.amount), db.rows[row := r.(status := status, refund := Some(|db.ledger|))],
       db.ledger + [Entry(r.user, r.amount, Refund)])
  }

  // ---- Steps ----

  datatype Act =
    | BeginRequest(x: nat, user: nat, amount: int)
    | CheckPending(x: nat)
    | Debit(x: nat)
    | File(x: nat)
    | BeginRefund(x: nat, row: nat, status: Status)
    | Resolve(x: nat)
    | Credit(x: nat)
    | Commit(x: nat)
    | Rollback(x: nat)
    | Complete(row: nat)
    | Move(user: nat, delta: int)

  function Drop(s: System, x: nat): System {
    s.(txns := s.txns - {x})
  }

  function Put(s: System, x: nat, t: Txn): System {
    s.(txns := s.txns[x := t])
  }

  /** One statement of one transaction; a statement that has to wait for a lock, or makes no sense, changes nothing. */
  function Step(s: System, a: Act): System {
    match a
    case BeginRequest(x, user, amount) =>
      if x in s.txns || user >= |s.db.wallets| || amount <= 0 then s else Put(s, x, Requesting(user, amount, Begun))
    case BeginRefund(x, row, status) =>
      if x in s.txns || (status != Rejected && status != Cancelled) then s
      else Put(s, x, Refunding(row, status, Opened))
    case CheckPending(x) =>
      if x in s.txns && s.txns[x].Requesting? && s.txns[x].stage == Begun then
        if HasPending(s.db.rows, s.txns[x].user) then Drop(s, x) else Put(s, x, s.txns[x].(stage := Checked))
      else s
    case Debit(x) =>
      if x in s.txns && s.txns[x].Requesting? && s.txns[x].stage == Checked
         && s.txns[x].user < |s.db.wallets| && WalletFree(s, x, s.txns[x].user) then
        if s.db.wallets[s.txns[x].user] >= s.txns[x].amount then Put(s, x, s.txns[x].(stage := Debited)) else Drop(s, x)
      else s
    case File(x) =>
      if x in s.txns && s.txns[x].Requesting? && s.txns[x].stage == Debited && SlotFree(s, x, s.txns[x].user) then
        if HasPending(s.db.rows, s.txns[x].user) then Drop(s, x) else Put(s, x, s.txns[x].(stage := Filed))
      else s
    case Resolve(x) =>
      if x in s.txns && s.txns[x].Refunding? && s.txns[x].done == Opened && RowFree(s, x, s.txns[x].row) then
        if s.txns[x].row < |s.db.rows| && s.db.rows[s.txns[x].row].status == Pending
        then Put(s, x, s.txns[x].(done := Resolved)) else Drop(s, x)
      else s
    case Credit(x) =>
      if x in s.txns && s.txns[x].Refunding? && s.txns[x].done == Resolved && s.txns[x].row < |s.db.rows|
         && WalletFree(s, x, s.db.rows[s.txns[x].row].user)
      then Put(s, x, s.txns[x].(done := Credited))
      else s
    case Commit(x) =>
      if x !in s.txns then s
      else (match s.txns[x]
        case Requesting(user, amount, stage) =>
          if stage == Filed && user < |s.db.wallets| then Drop(s, x).(db := FileRequest(s.db, user, amount)) else s
        case Refunding(row, status, done) =>
          if done == Credited && row < |s.db.rows| && s.db.rows[row].user < |s.db.wallets|
          then Drop(s, x).(db := PayBack(s.db, row, status)) else s)
    case Rollback(x) => Drop(s, x)
    case Complete(row) =>
      if row < |s.db.rows| && s.db.rows[row].status == Pending && forall y :: y in s.txns ==> !HoldsRow(s.txns[y], row)
      then s.(db := s.db.(rows := s.db.rows[row := s.db.rows[row].(status := Completed)]))
      else s
    case Move(user, delta) =>
      if user < |s.db.wallets| && s.db.wallets[user] + delta >= 0
         && (forall y :: y in s.txns ==> !HoldsWallet(s.db, s.txns[y], user))
      then s.(db := s.db.(wallets := Add(s.db.wallets, user, delta),
                      ledger := s.db.ledger + [Entry(user, delta, Other)]))
      else s
  }

  function Run(s: System, acts: seq<Act>): System
    decreases |acts|
  {
    if acts == [] then s else Run(Step(s, acts[0]), acts[1..])
  }

  // ---- The books ----

  function LedgerSum(ledger: seq<Entry>, user: nat): int {
    if ledger == [] then 0 else (if ledger[0].user == user then ledger[0].amount else 0) + LedgerSum(ledger[1..], user)
  }

  /** What came into a wallet, or left it, other than by withdrawals. */
  function Inflow(ledger: seq<Entry>, user: nat): int {
    if ledger == [] then 0
    else (if ledger[0].user == user && ledger[0].kind == Other then ledger[0].amount else 0) + Inflow(ledger[1..], user)
  }

  /** The money of a user's pending and completed requests. */
  function Held(rows: seq<Row>, user: nat): int {
    if rows == [] then 0
    else
      (if rows[0].user == user && (rows[0].status == Pending || rows[0].status == Completed) then rows[0].amount else 0)
      + Held(rows[1..], user)
  }

  predicate PaidBack(r: Row) {
    r.status == Rejected || r.status == Cancelled
  }

  /** Every request's own entries, none shared. */
  ghost predicate Receipts(rows: seq<Row>, ledger: seq<Entry>) {
    && (forall i :: 0 <= i < |rows| ==>
          rows[i].debit < |ledger| && ledger[rows[i].debit] == Entry(rows[i].user, -rows[i].amount, Withdrawal))
    && (forall i :: 0 <= i < |rows| ==> (rows[i].refund.Some? <==> PaidBack(rows[i])))
    && (forall i :: 0 <= i < |rows| && rows[i].refund.Some? ==>
          rows[i].refund.value < |ledger|
              && ledger[rows[i].refund.value] == Entry(rows[i].user, rows[i].amount, Refund))
    && (forall i, j :: 0 <= i < j < |rows| ==> rows[i].debit != rows[j].debit)
    && (forall i, j :: 0 <= i < j < |rows| && rows[i].refund.Some? ==> rows[i].refund != rows[j].refund)
  }

  /** Every ledger entry of a request belongs to one. */
  ghost predicate Claimed(rows: seq<Row>, ledger: seq<Entry>) {
    && (forall k :: 0 <= k < |ledger| && ledger[k].kind == Withdrawal ==>
        exists i :: 0 <= i < |rows| && rows[i].debit == k)
    && (forall k :: 0 <= k < |ledger| && ledger[k].kind == Refund ==>
        exists i :: 0 <= i < |rows| && rows[i].refund == Some(k))
  }

  /** Every request has its own debit in the ledger, and its own refund exactly when it was paid back; and no others. */
  ghost predicate Entered(rows: seq<Row>, ledger: seq<Entry>) {
    Receipts(rows, ledger) && Claimed(rows, ledger)
  }

  ghost predicate OnePending(rows: seq<Row>) {
    forall i, j :: 0 <= i < j < |rows| && rows[i].status == Pending && rows[j].status == Pending ==>
        rows[i].user != rows[j].user
  }

  /** Every wallet is what the ledger makes it, and holds back exactly the open and paid-out requests. */
  ghost predicate Balanced(db: Db, opening: seq<int>) {
    && |opening| == |db.wallets|
    && forall u: nat :: u < |opening| ==>
         && db.wallets[u] == opening[u] + LedgerSum(db.ledger, u)
         && db.wallets[u] + Held(db.rows, u) == opening[u] + Inflow(db.ledger, u)
  }

  ghost predicate DbOk(db: Db, opening: seq<int>) {
    && (forall u :: 0 <= u < |db.wallets| ==> db.wallets[u] >= 0)
    && (forall i :: 0 <= i < |db.rows| ==> db.rows[i].user < |db.wallets| && db.rows[i].amount > 0)
    && OnePending(db.rows) && Entered(db.rows, db.ledger) && Balanced(db, opening)
  }

  /** What an open transaction may rely on when it commits. */
  ghost predicate TxnOk(db: Db, t: Txn) {
    match t
    case Requesting(user, amount, stage) =>
      && user < |db.wallets| && amount > 0
      && (stage == Debited || stage == Filed ==> db.wallets[user] >= amount)
      && (stage == Filed ==> !HasPending(db.rows, user))
    case Refunding(row, status, done) =>
      && (status == Rejected || status == Cancelled)
      && (done != Opened ==> row < |db.rows| && db.rows[row].status == Pending)
  }

  /** No two open transactions have written the same row. */
  ghost predicate Exclusive(s: System) {
    && (forall x, y, u ::
          x in s.txns && y in s.txns && HoldsWallet(s.db, s.txns[x], u) && HoldsWallet(s.db, s.txns[y], u) ==> x == y)
    && (forall x, y, r :: x in s.txns && y in s.txns && HoldsRow(s.txns[x], r) && HoldsRow(s.txns[y], r) ==> x == y)
  }

  ghost predicate Safe(s: System, opening: seq<int>) {
    && DbOk(s.db, opening) && Exclusive(s)
    && forall x :: x in s.txns ==> TxnOk(s.db, s.txns[x])
  }

  // ---- What each step keeps ----

  lemma {:induction false} LedgerSnoc(ledger: seq<Entry>, e: Entry, user: nat)
    ensures LedgerSum(ledger + [e], user) == LedgerSum(ledger, user) + if e.user == user then e.amount else 0
    ensures Inflow(ledger + [e], user)
         == Inflow(ledger, user) + if e.user == user && e.kind == Other then e.amount else 0
  {
    if ledger == [] {
      assert ledger + [e] == [e];
    } else {
      LedgerSnoc(ledger[1..], e, user);
      assert (ledger + [e])[1..] == ledger[1..] + [e];
    }
  }

  function HeldBy(r: Row, user: nat): int {
    if r.user == user && (r.status == Pending || r.status == Completed) then r.amount else 0
  }

  lemma {:induction false} HeldSnoc(rows: seq<Row>, r: Row, user: nat)
    ensures Held(rows + [r], user) == Held(rows, user) + HeldBy(r, user)
  {
    if rows == [] {
      assert rows + [r] == [r];
    } else {
      HeldSnoc(rows[1..], r, user);
      assert (rows + [r])[1..] == rows[1..] + [r];
    }
  }

  lemma {:induction false} HeldUpdate(rows: seq<Row>, i: nat, r: Row, user: nat)
    requires i < |rows|
    ensures Held(rows[i := r], user) == Held(rows, user) - HeldBy(rows[i], user) + HeldBy(r, user)
  {
    if i == 0 {
      assert rows[i := r][1..] == rows[1..];
    } else {
      assert rows[i := r][1..] == rows[1..][i - 1 := r];
      HeldUpdate(rows[1..], i - 1, r, user);
    }
  }

  lemma {:induction false} FiledBalance(db: Db, opening: seq<int>, user: nat, amount: int)
    requires Balanced(db, opening) && user < |db.wallets|
    ensures Balanced(FileRequest(db, user, amount), opening)
  {
    var e, r := Entry(user, -amount, Withdrawal), Row(user, amount, Pending, |db.ledger|, None);
    forall u: nat | u < |opening|
      ensures LedgerSum(db.ledger + [e], u) == LedgerSum(db.ledger, u) - if u == user then amount else 0
      ensures Inflow(db.ledger + [e], u) == Inflow(db.ledger, u)
      ensures Held(db.rows + [r], u) == Held(db.rows, u) + if u == user then amount else 0
    {
      LedgerSnoc(db.ledger, e, u);
      HeldSnoc(db.rows, r, u);
    }
  }

  lemma {:induction false} FiledBooks(db: Db, opening: seq<int>, user: nat, amount: int)
    requires DbOk(db, opening) && user < |db.wallets| && 0 < amount <= db.wallets[user] && !HasPending(db.rows, user)
    ensures DbOk(FileRequest(db, user, amount), opening)
  {
    FiledBalance(db, opening, user, amount);
    FiledPending(db.rows, Row(user, amount, Pending, |db.ledger|, None));
    EnteredFiled(db.rows, db.ledger, Entry(user, -amount, Withdrawal), Row(user, amount, Pending, |db.ledger|, None));
  }

  lemma {:induction false} FiledPending(rows: seq<Row>, r: Row)
    requires OnePending(rows) && !HasPending(rows, r.user)
    ensures OnePending(rows + [r])
  {
  }

  lemma {:induction false} ClaimedFiled(rows: seq<Row>, ledger: seq<Entry>, e: Entry, r: Row)
    requires Claimed(rows, ledger) && r.debit == |ledger| && e.kind == Withdrawal
    ensures Claimed(rows + [r], ledger + [e])
  {
    var rs, l := rows + [r], ledger + [e];
    forall k | 0 <= k < |l| && l[k].kind == Withdrawal ensures exists i :: 0 <= i < |rs| && rs[i].debit == k {
      if k < |ledger| {
        var i :| 0 <= i < |rows| && rows[i].debit == k;
        assert rs[i].debit == k;
      } else {
        assert rs[|rows|].debit == k;
      }
    }
    forall k | 0 <= k < |l| && l[k].kind == Refund ensures exists i :: 0 <= i < |rs| && rs[i].refund == Some(k)
    {
      var i :| 0 <= i < |rows| && rows[i].refund == Some(k);
      assert rs[i].refund == Some(k);
    }
  }

  lemma {:induction false} EnteredFiled(rows: seq<Row>, ledger: seq<Entry>, e: Entry, r: Row)
    requires Entered(rows, ledger) && r.debit == |ledger| && r.status == Pending && r.refund == None
    requires e == Entry(r.user, -r.amount, Withdrawal)
    ensures Entered(rows + [r], ledger + [e])
  {
    ClaimedFiled(rows, ledger, e, r);
    ReceiptsFiled(rows, ledger, e, r);
  }

  lemma {:induction false} ReceiptsFiled(rows: seq<Row>, ledger: seq<Entry>, e: Entry, r: Row)
    requires Receipts(rows, ledger) && r.debit == |ledger| && r.status == Pending && r.refund == None
    requires e == Entry(r.user, -r.amount, Withdrawal)
    ensures Receipts(rows + [r], ledger + [e])
  {
  }

  lemma {:induction false} ClaimedPaidBack(rows: seq<Row>, ledger: seq<Entry>, row: nat, e: Entry, r: Row)
    requires Claimed(rows, ledger) && row < |rows| && rows[row].refund == None
    requires r.debit == rows[row].debit && r.refund == Some(|ledger|) && e.kind == Refund
    ensures Claimed(rows[row := r], ledger + [e])
  {
    var rs, l := rows[row := r], ledger + [e];
    forall k | 0 <= k < |l| && l[k].kind == Withdrawal ensures exists i :: 0 <= i < |rs| && rs[i].debit == k {
      var i :| 0 <= i < |rows| && rows[i].debit == k;
      assert rs[i].debit == k;
    }
    forall k | 0 <= k < |l| && l[k].kind == Refund ensures exists i :: 0 <= i < |rs| && rs[i].refund == Some(k)
    {
      if k < |ledger| {
        var i :| 0 <= i < |rows| && rows[i].refund == Some(k);
        assert i != row;
        assert rs[i].refund == Some(k);
      } else {
        assert rs[row].refund == Some(k);
      }
    }
  }

  lemma {:induction false} EnteredPaidBack(rows: seq<Row>, ledger: seq<Entry>, row: nat, e: Entry, r: Row)
    requires Entered(rows, ledger) && row < |rows| && rows[row].status == Pending
    requires r == rows[row].(status := r.status, refund := Some(|ledger|)) && PaidBack(r)
    requires e == Entry(r.user, r.amount, Refund)
    ensures Entered(rows[row := r], ledger + [e])
  {
    ClaimedPaidBack(rows, ledger, row, e, r);
    ReceiptsPaidBack(rows, ledger, row, e, r);
  }

  lemma {:induction false} ReceiptsPaidBack(rows: seq<Row>, ledger: seq<Entry>, row: nat, e: Entry, r: Row)
    requires Receipts(rows, ledger) && row < |rows|
    requires r == rows[row].(status := r.status, refund := Some(|ledger|)) && PaidBack(r)
    requires e == Entry(r.user, r.amount, Refund)
    ensures Receipts(rows[row := r], ledger + [e])
  {
  }

  lemma {:induction false} PaidBackBalance(db: Db, opening: seq<int>, row: nat, status: Status)
    requires Balanced(db, opening) && row < |db.rows| && db.rows[row].user < |db.wallets|
    requires db.rows[row].status == Pending && PaidBack(db.rows[row].(status := status))
    ensures Balanced(PayBack(db, row, status), opening)
  {
    var was := db.rows[row];
    var e, r := Entry(was.user, was.amount, Refund), was.(status := status, refund := Some(|db.ledger|));
    forall u: nat | u < |opening|
      ensures LedgerSum(db.ledger + [e], u) == LedgerSum(db.ledger, u) + if u == was.user then was.amount else 0
      ensures Inflow(db.ledger + [e], u) == Inflow(db.ledger, u)
      ensures Held(db.rows[row := r], u) == Held(db.rows, u) - if u == was.user then was.amount else 0
    {
      LedgerSnoc(db.ledger, e, u);
      HeldUpdate(db.rows, row, r, u);
    }
  }

  lemma {:induction false} ClosedPending(rows: seq<Row>, row: nat, r: Row)
    requires OnePending(rows) && row < |rows| && r.status != Pending
    ensures OnePending(rows[row := r])
  {
  }

  lemma {:induction false} PaidBackBooks(db: Db, opening: seq<int>, row: nat, status: Status)
    requires DbOk(db, opening) && row < |db.rows| && db.rows[row].status == Pending
        && (status == Rejected || status == Cancelled)
    ensures DbOk(PayBack(db, row, status), opening)
  {
    var was := db.rows[row];
    var r := was.(status := status, refund := Some(|db.ledger|));
    PaidBackBalance(db, opening, row, status);
    ClosedPending(db.rows, row, r);
    EnteredPaidBack(db.rows, db.ledger, row, Entry(was.user, was.amount, Refund), r);
  }

  lemma {:induction false} ClaimedCompleted(rows: seq<Row>, ledger: seq<Entry>, row: nat, r: Row)
    requires Claimed(rows, ledger) && row < |rows| && r.debit == rows[row].debit && r.refund == rows[row].refund
    ensures Claimed(rows[row := r], ledger)
  {
    var rs := rows[row := r];
    forall k | 0 <= k < |ledger| && ledger[k].kind == Withdrawal ensures exists i :: 0 <= i < |rs| && rs[i].debit == k {
      var i :| 0 <= i < |rows| && rows[i].debit == k;
      assert rs[i].debit == k;
    }
    forall k | 0 <= k < |ledger| && ledger[k].kind == Refund
      ensures exists i :: 0 <= i < |rs| && rs[i].refund == Some(k)
    {
      var i :| 0 <= i < |rows| && rows[i].refund == Some(k);
      assert rs[i].refund == Some(k);
    }
  }

  lemma {:induction false} EnteredCompleted(rows: seq<Row>, ledger: seq<Entry>, row: nat)
    requires Entered(rows, ledger) && row < |rows| && rows[row].status == Pending
    ensures Entered(rows[row := rows[row].(status := Completed)], ledger)
  {
    var r := rows[row].(status := Completed);
    ClaimedCompleted(rows, ledger, row, r);
    ReceiptsCompleted(rows, ledger, row, r);
  }

  lemma {:induction false} ReceiptsCompleted(rows: seq<Row>, ledger: seq<Entry>, row: nat, r: Row)
    requires Receipts(rows, ledger) && row < |rows| && rows[row].status == Pending
        && r == rows[row].(status := Completed)
    ensures Receipts(rows[row := r], ledger)
  {
  }

  lemma {:induction false} CompletedBooks(db: Db, opening: seq<int>, row: nat)
    requires DbOk(db, opening) && row < |db.rows| && db.rows[row].status == Pending
    ensures DbOk(db.(rows := db.rows[row := db.rows[row].(status := Completed)]), opening)
  {
    EnteredCompleted(db.rows, db.ledger, row);
    ClosedPending(db.rows, row, db.rows[row].(status := Completed));
    forall u: nat | u < |opening|
      ensures Held(db.rows[row := db.rows[row].(status := Completed)], u) == Held(db.rows, u)
    {
      HeldUpdate(db.rows, row, db.rows[row].(status := Completed), u);
    }
  }

  lemma {:induction false} MovedBooks(db: Db, opening: seq<int>, user: nat, delta: int)
    requires DbOk(db, opening) && user < |db.wallets| && db.wallets[user] + delta >= 0
    ensures DbOk(db.(wallets := Add(db.wallets, user, delta), ledger := db.ledger + [Entry(user, delta, Other)]),
        opening)
  {
    var e := Entry(user, delta, Other);
    var ledger := db.ledger + [e];
    forall u: nat | u < |opening|
      ensures LedgerSum(ledger, u) == LedgerSum(db.ledger, u) + if u == user then delta else 0
      ensures Inflow(ledger, u) == Inflow(db.ledger, u) + if u == user then delta else 0
    {
      LedgerSnoc(db.ledger, e, u);
    }
    forall k | 0 <= k < |ledger| && ledger[k].kind != Other ensures k < |db.ledger| && ledger[k] == db.ledger[k] {
    }
  }
}
