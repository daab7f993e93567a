/** The withdrawal service: its checks in order, and the transactions it runs. */
module WithdrawalService {
  import opened Options
  import opened Text
  import opened Withdrawals
  import opened WithdrawalProofs

  datatype WithdrawalSettings = WithdrawalSettings(enabled: bool, minAmount: int, cancelEnabled: bool)

  datatype Reply = Accepted
    | WithdrawalsDisabled | DestinationInvalid | AmountInvalid | TooSmall(min: int) | Cooldown | AlreadyPending
    | InsufficientBalance | NotFound | NotPending | CancelDisabled | ReasonRequired

  /** The first reason a request is refused, in the order they are looked at. */
  function RequestReply(db: Db, settings: WithdrawalSettings, user: nat, amount: int, destinationOk: bool,
      cooling: bool): Reply
    requires user < |db.wallets|
  {
    if !settings.enabled then WithdrawalsDisabled
    else if !destinationOk then DestinationInvalid
    else if amount <= 0 then AmountInvalid
    else if amount < settings.minAmount then TooSmall(settings.minAmount)
    else if cooling then Cooldown
    else if HasPending(db.rows, user) then AlreadyPending
    else if db.wallets[user] < amount then InsufficientBalance
    else Accepted
  }

  function ResolveReply(rows: seq<Row>, row: nat): Reply {
    if row >= |rows| then NotFound else if rows[row].status != Pending then NotPending else Accepted
  }

  class WithdrawalService {
    var settings: WithdrawalSettings
    var wallets: seq<int>
    var rows: seq<Row>
    var ledger: seq<Entry>

    constructor (settings: WithdrawalSettings, wallets: seq<int>)
      ensures View() == Db(wallets, [], []) && this.settings == settings
    {
      this.settings, this.wallets, rows, ledger := settings, wallets, [], [];
    }

    function View(): Db
      reads this
    {
      Db(wallets, rows, ledger)
    }

    ghost predicate UsersKnown()
      reads this
    {
      forall i :: 0 <= i < |rows| ==> rows[i].user < |wallets|
    }

    method FindPending(user: nat) returns (found: bool)
      ensures found <==> HasPending(rows, user)
    {
      for i := 0 to |rows|
        invariant forall j :: 0 <= j < i ==> !(rows[j].user == user && rows[j].status == Pending)
      {
        if rows[i].user == user && rows[i].status == Pending {
          return true;
        }
      }
      return false;
    }

    method Request(user: nat, amount: int, destinationOk: bool, cooling: bool) returns (reply: Reply)
      requires user < |wallets| && UsersKnown()
      modifies this`wallets, this`rows, this`ledger
      ensures UsersKnown()
      ensures reply == RequestReply(old(View()), settings, user, amount, destinationOk, cooling)
      ensures View() == if reply == Accepted then FileRequest(old(View()), user, amount) else old(View())
    {
      if !settings.enabled {
        return WithdrawalsDisabled;
      }
      if !destinationOk {
        return DestinationInvalid;
      }
      if amount <= 0 {
        return AmountInvalid;
      }
      if amount < settings.minAmount {
        return TooSmall(settings.minAmount);
      }
      if cooling {
        return Cooldown;
      }
      var pending := FindPending(user);
      if pending {
        return AlreadyPending;
      }
      if wallets[user] < amount {
        return InsufficientBalance;
      }
      wallets := wallets[user := wallets[user] - amount];
      var txID := |ledger|;
      ledger := ledger + [Entry(user, -amount, Withdrawal)];
      rows := rows + [Row(user, amount, Pending, txID, None)];
      return Accepted;
    }

    /** Closes a pending request and pays it back, in one transaction. */
    method RefundRow(row: nat, status: Status) returns (reply: Reply)
      requires UsersKnown()
      modifies this`wallets, this`rows, this`ledger
      ensures UsersKnown()
      ensures reply == ResolveReply(old(rows), row) && View() == Refunded(old(View()), row, status)
    {
      if row >= |rows| {
        return NotFound;
      }
      if rows[row].status != Pending {
        return NotPending;
      }
      var user, amount := rows[row].user, rows[row].amount;
      wallets := wallets[user := wallets[user] + amount];
      var txID := |ledger|;
      ledger := ledger + [Entry(user, amount, Refund)];
      rows := rows[row := rows[row].(status := status, refund := Some(txID))];
      return Accepted;
    }

    method Cancel(user: nat, row: nat) returns (reply: Reply)
      requires UsersKnown()
      modifies this`wallets, this`rows, this`ledger
      ensures UsersKnown()
      ensures reply == if !settings.cancelEnabled then CancelDisabled
                       else if row >= |old(rows)| || old(rows)[row].user != user then NotFound
                       else ResolveReply(old(rows), row)
      ensures View() == if reply == Accepted then Refunded(old(View()), row, Cancelled) else old(View())
    {
      if !settings.cancelEnabled {
        return CancelDisabled;
      }
      if row >= |rows| || rows[row].user != user {
        return NotFound;
      }
      reply := RefundRow(row, Cancelled);
    }

    /** A reason of nothing but spaces is none (`Text.BlankExactly`). */
    method Reject(row: nat, reason: string) returns (reply: Reply)
      requires UsersKnown()
      modifies this`wallets, this`rows, this`ledger
      ensures UsersKnown()
      ensures reply == if TrimSpace(reason) == "" then ReasonRequired else ResolveReply(old(rows), row)
      ensures View() == if reply == Accepted then Refunded(old(View()), row, Rejected) else old(View())
    {
      var trimmed := TrimSpace(reason);
      if trimmed == "" {
        return ReasonRequired;
      }
      reply := RefundRow(row, Rejected);
    }

    /** The money was sent by hand: nothing else moves. */
    method Complete(row: nat) returns (reply: Reply)
      requires UsersKnown()
      modifies this`rows
      ensures UsersKnown()
      ensures reply == ResolveReply(old(rows), row)
      ensures View() == if reply == Accepted
                        then old(View()).(rows := old(rows)[row := old(rows)[row].(status := Completed)])
                        else old(View())
      ensures System(View(), map[]) == Step(System(old(View()), map[]), Withdrawals.Complete(row))
    {
      if row >= |rows| {
        return NotFound;
      }
      if rows[row].status != Pending {
        return NotPending;
      }
      rows := rows[row := rows[row].(status := Completed)];
      return Accepted;
    }
  }

  /** What the service commits for an accepted request is what its transaction commits, statement by statement. */
  lemma {:induction false} ServiceRequest(
      db: Db, settings: WithdrawalSettings, x: nat, user: nat, amount: int, destinationOk: bool, cooling: bool)
    requires user < |db.wallets| && amount > 0
    ensures RequestReply(db, settings, user, amount, destinationOk, cooling) == Accepted ==>
              Run(System(db, map[]), RequestActs(x, user, amount)) == System(FileRequest(db, user, amount), map[])
    ensures RequestReply(db, settings, user, amount, destinationOk, cooling)
              in {AlreadyPending, InsufficientBalance} ==>
              Run(System(db, map[]), RequestActs(x, user, amount)) == System(db, map[])
  {
    RequestAlone(db, x, user, amount);
  }

  /** A pending request of the user. */
  ghost predicate Waits(rows: seq<Row>, user: nat) {
    exists i :: 0 <= i < |rows| && rows[i].user == user && rows[i].status == Pending
  }

  /** Every answer, and exactly when it is given. */
  lemma {:induction false} RequestAnswers(
      db: Db, settings: WithdrawalSettings, user: nat, amount: int, destinationOk: bool, cooling: bool)
    requires user < |db.wallets|
    ensures var reply := RequestReply(db, settings, user, amount, destinationOk, cooling);
      var passed := settings.enabled && destinationOk && amount > 0 && amount >= settings.minAmount;
      && (reply == WithdrawalsDisabled <==> !settings.enabled)
      && (reply == DestinationInvalid <==> settings.enabled && !destinationOk)
      && (reply == AmountInvalid <==> settings.enabled && destinationOk && amount <= 0)
      && (reply == TooSmall(settings.minAmount) <==>
            settings.enabled && destinationOk && 0 < amount < settings.minAmount)
      && (reply == Cooldown <==> passed && cooling)
      && (reply == AlreadyPending <==> passed && !cooling && Waits(db.rows, user))
      && (reply == InsufficientBalance <==> passed && !cooling && !Waits(db.rows, user) && db.wallets[user] < amount)
      && (reply == Accepted <==> passed && !cooling && !Waits(db.rows, user) && db.wallets[user] >= amount)
  {
  }
}
