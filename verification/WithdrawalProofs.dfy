/** Safety of withdrawals under any interleaving, and the requests as the service runs them. */
module WithdrawalProofs {
  import opened Wallets
  import opened Withdrawals

  // ---- Every step keeps the system safe ----

  lemma {:induction false} DropSafe(s: System, x: nat, opening: seq<int>)
    requires Safe(s, opening)
    ensures Safe(Drop(s, x), opening)
  {
  }

  /** A transaction moves on: what it locks now, it held already or nobody else does. */
  lemma {:induction false} PutSafe(s: System, x: nat, t: Txn, opening: seq<int>)
    requires Safe(s, opening) && TxnOk(s.db, t)
    requires forall u :: HoldsWallet(s.db, t, u) ==>
      (x in s.txns && HoldsWallet(s.db, s.txns[x], u)) || WalletFree(s, x, u)
    requires forall r :: HoldsRow(t, r) ==> (x in s.txns && HoldsRow(s.txns[x], r)) || RowFree(s, x, r)
    ensures Safe(Put(s, x, t), opening)
  {
    var n := Put(s, x, t);
    forall y, z, u | y in n.txns && z in n.txns && HoldsWallet(n.db, n.txns[y], u) && HoldsWallet(n.db, n.txns[z], u)
      ensures y == z
    {
    }
  }

  /** The committed data changes under transactions that do not rely on what changed. */
  lemma {:induction false} DbSafe(s: System, db: Db, opening: seq<int>)
    requires Safe(s, opening) && DbOk(db, opening)
    requires forall y :: y in s.txns ==> TxnOk(db, s.txns[y])
    requires forall y, u :: y in s.txns && HoldsWallet(db, s.txns[y], u) ==> HoldsWallet(s.db, s.txns[y], u)
    ensures Safe(s.(db := db), opening)
  {
  }

  /** A request files against a wallet and an index slot nobody else has touched. */
  lemma {:induction false} RequestCommits(s: System, x: nat, opening: seq<int>)
    requires Safe(s, opening) && x in s.txns && s.txns[x].Requesting? && s.txns[x].stage == Filed
    ensures forall y :: y in s.txns && y != x ==>
      !HoldsWallet(s.db, s.txns[y], s.txns[x].user) && !HoldsSlot(s.db, s.txns[y], s.txns[x].user)
    ensures Safe(Drop(s, x).(db := FileRequest(s.db, s.txns[x].user, s.txns[x].amount)), opening)
  {
    var user, amount := s.txns[x].user, s.txns[x].amount;
    var db, rest := FileRequest(s.db, user, amount), Drop(s, x);
    FiledBooks(s.db, opening, user, amount);
    forall y | y in rest.txns
      ensures TxnOk(db, rest.txns[y]) && forall u :: HoldsWallet(db, rest.txns[y], u) ==>
        HoldsWallet(s.db, rest.txns[y], u)
    {
      assert HoldsWallet(s.db, s.txns[x], user);
      assert !HoldsWallet(s.db, s.txns[y], user);
      OtherUser(s.db, rest.txns[y], user, amount);
    }
    DbSafe(rest, db, opening);
  }

  lemma {:induction false} OtherUser(db: Db, t: Txn, user: nat, amount: int)
    requires user < |db.wallets| && TxnOk(db, t) && !HoldsWallet(db, t, user)
    ensures TxnOk(FileRequest(db, user, amount), t)
    ensures forall u :: HoldsWallet(FileRequest(db, user, amount), t, u) ==> HoldsWallet(db, t, u)
  {
    var next := FileRequest(db, user, amount);
    if t.Requesting? && t.stage == Filed {
      assert forall i :: 0 <= i < |db.rows| ==> next.rows[i] == db.rows[i];
    }
  }

  /** A refund closes a row and pays into a wallet nobody else has touched. */
  lemma {:induction false} RefundCommits(s: System, x: nat, opening: seq<int>)
    requires Safe(s, opening) && x in s.txns && s.txns[x].Refunding? && s.txns[x].done == Credited
    ensures s.txns[x].row < |s.db.rows| && s.db.rows[s.txns[x].row].user < |s.db.wallets|
    ensures forall y :: y in s.txns && y != x ==>
      !HoldsRow(s.txns[y], s.txns[x].row) && !HoldsWallet(s.db, s.txns[y], s.db.rows[s.txns[x].row].user)
    ensures Safe(Drop(s, x).(db := PayBack(s.db, s.txns[x].row, s.txns[x].status)), opening)
  {
    var row, status := s.txns[x].row, s.txns[x].status;
    var db, rest := PayBack(s.db, row, status), Drop(s, x);
    PaidBackBooks(s.db, opening, row, status);
    forall y | y in rest.txns
      ensures TxnOk(db, rest.txns[y]) && forall u :: HoldsWallet(db, rest.txns[y], u) ==>
        HoldsWallet(s.db, rest.txns[y], u)
    {
      assert HoldsRow(s.txns[x], row) && HoldsWallet(s.db, s.txns[x], s.db.rows[row].user);
      assert !HoldsRow(s.txns[y], row) && !HoldsWallet(s.db, s.txns[y], s.db.rows[row].user);
      OtherRow(s.db, rest.txns[y], row, status);
    }
    DbSafe(rest, db, opening);
  }

  lemma {:induction false} OtherRow(db: Db, t: Txn, row: nat, status: Status)
    requires row < |db.rows| && db.rows[row].user < |db.wallets| && PaidBack(db.rows[row].(status := status))
        && TxnOk(db, t)
    requires !HoldsRow(t, row) && !HoldsWallet(db, t, db.rows[row].user)
    ensures TxnOk(PayBack(db, row, status), t)
    ensures forall u :: HoldsWallet(PayBack(db, row, status), t, u) ==> HoldsWallet(db, t, u)
  {
    var next := PayBack(db, row, status);
    assert forall i :: 0 <= i < |db.rows| && i != row ==> next.rows[i] == db.rows[i];
    assert next.rows[row].status != Pending;
  }

  lemma {:induction false} CompletionSafe(s: System, row: nat, opening: seq<int>)
    requires Safe(s, opening) && row < |s.db.rows| && s.db.rows[row].status == Pending
    requires forall y :: y in s.txns ==> !HoldsRow(s.txns[y], row)
    ensures Safe(Step(s, Complete(row)), opening)
  {
    CompletedBooks(s.db, opening, row);
    var db := s.db.(rows := s.db.rows[row := s.db.rows[row].(status := Completed)]);
    forall y | y in s.txns
      ensures TxnOk(db, s.txns[y]) && forall u :: HoldsWallet(db, s.txns[y], u) ==> HoldsWallet(s.db, s.txns[y], u)
    {
      assert !HoldsRow(s.txns[y], row);
      assert forall i :: 0 <= i < |s.db.rows| && i != row ==> db.rows[i] == s.db.rows[i];
    }
    DbSafe(s, db, opening);
  }

  lemma {:induction false} MoveSafe(s: System, user: nat, delta: int, opening: seq<int>)
    requires Safe(s, opening) && user < |s.db.wallets| && s.db.wallets[user] + delta >= 0
    requires forall y :: y in s.txns ==> !HoldsWallet(s.db, s.txns[y], user)
    ensures Safe(Step(s, Move(user, delta)), opening)
  {
    MovedBooks(s.db, opening, user, delta);
    var db := s.db.(wallets := Add(s.db.wallets, user, delta), ledger := s.db.ledger + [Entry(user, delta, Other)]);
    forall y | y in s.txns
      ensures TxnOk(db, s.txns[y]) && forall u :: HoldsWallet(db, s.txns[y], u) ==> HoldsWallet(s.db, s.txns[y], u)
    {
      assert !HoldsWallet(s.db, s.txns[y], user);
    }
    DbSafe(s, db, opening);
  }

  lemma {:induction false} RequestStepSafe(s: System, x: nat, stage: RequestStage, opening: seq<int>)
    requires Safe(s, opening) && x in s.txns && s.txns[x].Requesting? && TxnOk(s.db, s.txns[x].(stage := stage))
    requires stage == Debited || stage == Filed ==>
               HoldsWallet(s.db, s.txns[x], s.txns[x].user) || WalletFree(s, x, s.txns[x].user)
    ensures Safe(Put(s, x, s.txns[x].(stage := stage)), opening)
  {
    PutSafe(s, x, s.txns[x].(stage := stage), opening);
  }

  lemma {:induction false} RefundStepSafe(s: System, x: nat, done: RefundStage, opening: seq<int>)
    requires Safe(s, opening) && x in s.txns && s.txns[x].Refunding? && TxnOk(s.db, s.txns[x].(done := done))
    requires HoldsRow(s.txns[x], s.txns[x].row) || RowFree(s, x, s.txns[x].row)
    requires done == Credited && s.txns[x].row < |s.db.rows| ==>
               var user := s.db.rows[s.txns[x].row].user;
               HoldsWallet(s.db, s.txns[x], user) || WalletFree(s, x, user)
    ensures Safe(Put(s, x, s.txns[x].(done := done)), opening)
  {
    PutSafe(s, x, s.txns[x].(done := done), opening);
  }

  lemma {:induction false} StepSafe(s: System, a: Act, opening: seq<int>)
    requires Safe(s, opening)
    ensures Safe(Step(s, a), opening)
  {
    match a
    case BeginRequest(x, user, amount) =>
      if !(x in s.txns || user >= |s.db.wallets| || amount <= 0) {
        PutSafe(s, x, Requesting(user, amount, Begun), opening);
      }
    case BeginRefund(x, row, status) =>
      if !(x in s.txns || (status != Rejected && status != Cancelled)) {
        PutSafe(s, x, Refunding(row, status, Opened), opening);
      }
    case CheckPending(x) => AdvanceSafe(s, x, Checked, a, opening);
    case Debit(x) => AdvanceSafe(s, x, Debited, a, opening);
    case File(x) => AdvanceSafe(s, x, Filed, a, opening);
    case Resolve(x) => ResolveSafe(s, x, Resolved, a, opening);
    case Credit(x) => ResolveSafe(s, x, Credited, a, opening);
    case Commit(x) =>
      if x in s.txns {
        match s.txns[x]
        case Requesting(_, _, stage) => if stage == Filed { RequestCommits(s, x, opening); }
        case Refunding(_, _, done) => if done == Credited { RefundCommits(s, x, opening); }
      }
    case Rollback(x) => DropSafe(s, x, opening);
    case Complete(row) => if Step(s, a) != s { CompletionSafe(s, row, opening); }
    case Move(user, delta) => if Step(s, a) != s { MoveSafe(s, user, delta, opening); }
  }

  lemma {:induction false} AdvanceSafe(s: System, x: nat, stage: RequestStage, a: Act, opening: seq<int>)
    requires Safe(s, opening)
    requires (a == CheckPending(x) && stage == Checked) || (a == Debit(x) && stage == Debited)
          || (a == File(x) && stage == Filed)
    ensures Safe(Step(s, a), opening)
  {
    DropSafe(s, x, opening);
    if x in s.txns && s.txns[x].Requesting? && Step(s, a) == Put(s, x, s.txns[x].(stage := stage)) && Step(s, a) != s {
      RequestStepSafe(s, x, stage, opening);
    }
  }

  lemma {:induction false} ResolveSafe(s: System, x: nat, done: RefundStage, a: Act, opening: seq<int>)
    requires Safe(s, opening)
    requires (a == Resolve(x) && done == Resolved) || (a == Credit(x) && done == Credited)
    ensures Safe(Step(s, a), opening)
  {
    DropSafe(s, x, opening);
    if x in s.txns && s.txns[x].Refunding? && Step(s, a) == Put(s, x, s.txns[x].(done := done)) && Step(s, a) != s {
      RefundStepSafe(s, x, done, opening);
    }
  }

  // ---- Whole runs ----

  function Started(opening: seq<int>): System {
    System(Db(opening, [], []), map[])
  }

  lemma {:induction false} RunSafe(s: System, acts: seq<Act>, opening: seq<int>)
    requires Safe(s, opening)
    ensures Safe(Run(s, acts), opening)
    decreases |acts|
  {
    if acts != [] {
      StepSafe(s, acts[0], opening);
      RunSafe(Step(s, acts[0]), acts[1..], opening);
    }
  }

  /** Any statements, of any transactions, in any order: one open request a user, wallets never below nothing, every
      request debited once and refunded once exactly if it was rejected or cancelled, and every wallet accounted for. */
  lemma {:induction false} WithdrawalsSafe(opening: seq<int>, acts: seq<Act>)
    requires forall u :: 0 <= u < |opening| ==> opening[u] >= 0
    ensures DbOk(Run(Started(opening), acts).db, opening)
  {
    RunSafe(Started(opening), acts, opening);
  }

  /** Requests are never lost, and a final status stays. */
  ghost predicate Extends(a: seq<Row>, b: seq<Row>) {
    && |a| <= |b|
    && forall i :: 0 <= i < |a| ==>
         && b[i].user == a[i].user && b[i].amount == a[i].amount && b[i].debit == a[i].debit
         && (a[i].status != Pending ==> b[i] == a[i])
  }

  lemma {:induction false} StepExtends(s: System, a: Act, opening: seq<int>)
    requires Safe(s, opening)
    ensures Extends(s.db.rows, Step(s, a).db.rows)
  {
    var rows, next := s.db.rows, Step(s, a).db.rows;
    match a
    case Commit(x) =>
      if x in s.txns && s.txns[x].Refunding? && next != rows {
        OneRow(rows, s.txns[x].row, next);
      }
    case Complete(row) =>
      if next != rows {
        OneRow(rows, row, next);
      }
    case _ => assert next == rows;
  }

  lemma {:induction false} OneRow(rows: seq<Row>, row: nat, next: seq<Row>)
    requires row < |rows| == |next| && rows[row].status == Pending && next == rows[row := next[row]]
    requires next[row] == rows[row].(status := next[row].status, refund := next[row].refund)
    ensures Extends(rows, next)
  {
  }

  lemma {:induction false} FinalStays(s: System, acts: seq<Act>, opening: seq<int>)
    requires Safe(s, opening)
    ensures Extends(s.db.rows, Run(s, acts).db.rows)
    decreases |acts|
  {
    if acts != [] {
      StepSafe(s, acts[0], opening);
      StepExtends(s, acts[0], opening);
      FinalStays(Step(s, acts[0]), acts[1..], opening);
    }
  }

  // ---- One request at a time is the service's own request ----

  /** A request's outcome when nothing else is going on. */
  function Requested(db: Db, user: nat, amount: int): Db
    requires user < |db.wallets|
  {
    if HasPending(db.rows, user) || db.wallets[user] < amount then db else FileRequest(db, user, amount)
  }

  function Refunded(db: Db, row: nat, status: Status): Db {
    if row < |db.rows| && db.rows[row].status == Pending && db.rows[row].user < |db.wallets|
    then PayBack(db, row, status) else db
  }

  function RequestActs(x: nat, user: nat, amount: int): seq<Act> {
    [BeginRequest(x, user, amount), CheckPending(x), Debit(x), File(x), Commit(x)]
  }

  function RefundActs(x: nat, row: nat, status: Status): seq<Act> {
    [BeginRefund(x, row, status), Resolve(x), Credit(x), Commit(x)]
  }

  lemma {:induction false} RunFour(s: System, acts: seq<Act>)
    requires |acts| == 4
    ensures Run(s, acts) == Step(Step(Step(Step(s, acts[0]), acts[1]), acts[2]), acts[3])
  {
    assert acts[1..][1..] == acts[2..] && acts[2..][1..] == acts[3..] && acts[3..][1..] == [];
    assert Run(Step(s, acts[0]), acts[1..]) == Run(Step(Step(s, acts[0]), acts[1]), acts[2..]);
    assert Run(Step(Step(Step(s, acts[0]), acts[1]), acts[2]), acts[3..])
        == Run(Step(Step(Step(Step(s, acts[0]), acts[1]), acts[2]), acts[3]), []);
  }

  /** Run on its own, the transaction of a request does what the request promises. */
  lemma {:induction false} RequestAlone(db: Db, x: nat, user: nat, amount: int)
    requires user < |db.wallets| && amount > 0
    ensures Run(System(db, map[]), RequestActs(x, user, amount)) == System(Requested(db, user, amount), map[])
  {
    var s := System(db, map[]);
    var acts := RequestActs(x, user, amount);
    var begun := Step(s, acts[0]);
    assert begun == System(db, map[x := Requesting(user, amount, Begun)]);
    assert acts[1..] == [CheckPending(x), Debit(x), File(x), Commit(x)];
    RunFour(begun, acts[1..]);
    var checked := Step(begun, CheckPending(x));
    if HasPending(db.rows, user) {
      assert checked == s;
    } else {
      assert checked == System(db, map[x := Requesting(user, amount, Checked)]);
      RequestRest(db, x, user, amount);
    }
  }

  lemma {:induction false} RequestRest(db: Db, x: nat, user: nat, amount: int)
    requires user < |db.wallets| && amount > 0 && !HasPending(db.rows, user)
    ensures var checked := System(db, map[x := Requesting(user, amount, Checked)]);
      Step(Step(Step(checked, Debit(x)), File(x)), Commit(x)) == System(Requested(db, user, amount), map[])
  {
    var checked := System(db, map[x := Requesting(user, amount, Checked)]);
    var debited := Step(checked, Debit(x));
    if db.wallets[user] >= amount {
      assert debited == System(db, map[x := Requesting(user, amount, Debited)]);
      var filed := Step(debited, File(x));
      assert filed == System(db, map[x := Requesting(user, amount, Filed)]);
      assert Drop(filed, x) == System(db, map[]);
    } else {
      assert debited == System(db, map[]);
    }
  }

  /** And so does the transaction of a refund. */
  lemma {:induction false} RefundAlone(db: Db, x: nat, row: nat, status: Status)
    requires status == Rejected || status == Cancelled
    requires forall i :: 0 <= i < |db.rows| ==> db.rows[i].user < |db.wallets|
    ensures Run(System(db, map[]), RefundActs(x, row, status)) == System(Refunded(db, row, status), map[])
  {
    var s := System(db, map[]);
    RunFour(s, RefundActs(x, row, status));
    var open := Step(s, BeginRefund(x, row, status));
    assert open == System(db, map[x := Refunding(row, status, Opened)]);
    var resolved := Step(open, Resolve(x));
    if row < |db.rows| && db.rows[row].status == Pending {
      assert resolved == System(db, map[x := Refunding(row, status, Resolved)]);
      var credited := Step(resolved, Credit(x));
      assert credited == System(db, map[x := Refunding(row, status, Credited)]);
      assert Drop(credited, x) == s;
    } else {
      assert resolved == s;
    }
  }
}
