/**
 * The two transaction processors of the coin network: `issue` credits one
 * account, `transfer` moves value between two accounts after checking the
 * source has enough. Each writes the touched accounts back to the store and
 * emits one event. The store and the event stream are the fields of a
 * `Ledger`; each processor is one atomic step on it.
 */
module Logic {
  import opened Accounts

  datatype Option<+T> = None | Some(value: T)

  /** An Issue transaction: the account to credit, the amount, and the
      optional `newValue` field that is copied into the emitted event. */
  datatype IssueTx = IssueTx(account: AccountId, amount: real, newValue: Option<real>)

  /** A Transfer transaction between two account references. */
  datatype TransferTx = TransferTx(accountFrom: AccountId, accountTo: AccountId, amount: real)

  /** The events the processors emit (the source spells the second one `Transfered`). */
  datatype Event =
    | Issued(account: AccountId, previousValue: real, newValue: Option<real>)
    | Transfered(accountFrom: AccountId, accountTo: AccountId, amount: real)

  /** The message `transfer` throws when the source balance is too low. */
  const InsufficientFunds: string := "Insufficient funds!"

  /** Why a submission fails: a reference that names no account in the store
      (the host cannot resolve it, so the processor never runs), or an error
      the processor throws. */
  datatype Error = UnknownAccount(id: AccountId) | Thrown(message: string)

  datatype Outcome = Committed | Rejected(error: Error)

  /** The store after an issue: the target is credited with the amount,
      whatever its sign. */
  function Credited(b: Balances, tx: IssueTx): (r: Balances)
    requires tx.account in b
  {
    b[tx.account := b[tx.account] + tx.amount]
  }

  /** The reason a transfer is refused, or None when it goes ahead. Both
      references are resolved before the balance check runs. */
  function TransferError(b: Balances, tx: TransferTx): (e: Option<Error>)
    ensures e.None? <==>
      tx.accountFrom in b && tx.accountTo in b && b[tx.accountFrom] >= tx.amount
    ensures e == Some(Thrown(InsufficientFunds)) <==>
      tx.accountFrom in b && tx.accountTo in b && b[tx.accountFrom] < tx.amount
    ensures e.Some? ==> e.value.UnknownAccount? || e.value == Thrown(InsufficientFunds)
    ensures e.Some? && e.value.UnknownAccount? ==>
      e.value.id in {tx.accountFrom, tx.accountTo} && e.value.id !in b
  {
    if tx.accountFrom !in b then Some(UnknownAccount(tx.accountFrom))
    else if tx.accountTo !in b then Some(UnknownAccount(tx.accountTo))
    else if b[tx.accountFrom] < tx.amount then Some(Thrown(InsufficientFunds))
    else None
  }

  /** The store after a transfer that passed the check: the source is debited,
      then the destination is credited. Both references denote records of the
      one store, so a transfer from an account to itself nets out. */
  function Moved(b: Balances, tx: TransferTx): (r: Balances)
    requires tx.accountFrom in b && tx.accountTo in b
  {
    var debited := b[tx.accountFrom := b[tx.accountFrom] - tx.amount];
    debited[tx.accountTo := debited[tx.accountTo] + tx.amount]
  }

  /** An issue changes the target's balance by exactly the amount, touches no
      other account, and adds the amount to the total value of the store. */
  lemma IssueEffect(b: Balances, tx: IssueTx)
    requires tx.account in b
    ensures Credited(b, tx).Keys == b.Keys
    ensures Credited(b, tx)[tx.account] == b[tx.account] + tx.amount
    ensures forall id :: id in b && id != tx.account ==> Credited(b, tx)[id] == b[id]
    ensures Total(Credited(b, tx)) == Total(b) + tx.amount
  {
    var v := b[tx.account] + tx.amount;
    assert Credited(b, tx) == b[tx.account := v];
    TotalUpdate(b, tx.account, v);
  }

  /** A transfer between two distinct accounts debits the source and credits
      the destination by the amount, touches no other account, leaves the
      source non-negative, and conserves both the pair's sum and the total. */
  lemma TransferEffect(b: Balances, tx: TransferTx)
    requires TransferError(b, tx).None?
    requires tx.accountFrom != tx.accountTo
    ensures Moved(b, tx).Keys == b.Keys
    ensures Moved(b, tx)[tx.accountFrom] == b[tx.accountFrom] - tx.amount
    ensures Moved(b, tx)[tx.accountTo] == b[tx.accountTo] + tx.amount
    ensures forall id :: id in b && id != tx.accountFrom && id != tx.accountTo ==>
      Moved(b, tx)[id] == b[id]
    ensures Moved(b, tx)[tx.accountFrom] >= 0.0
    ensures Moved(b, tx)[tx.accountFrom] + Moved(b, tx)[tx.accountTo] ==
      b[tx.accountFrom] + b[tx.accountTo]
    ensures Total(Moved(b, tx)) == Total(b)
  {
    var debited := b[tx.accountFrom := b[tx.accountFrom] - tx.amount];
    TotalUpdate(b, tx.accountFrom, b[tx.accountFrom] - tx.amount);
    TotalUpdate(debited, tx.accountTo, debited[tx.accountTo] + tx.amount);
  }

  /** A transfer from an account to itself leaves every balance as it was. */
  lemma SelfTransferNetsOut(b: Balances, tx: TransferTx)
    requires tx.accountFrom in b && tx.accountFrom == tx.accountTo
    ensures Moved(b, tx) == b
  {
  }

  /** A submitted transaction of either kind. */
  datatype Submission = SubmitIssue(issue: IssueTx) | SubmitTransfer(transfer: TransferTx)

  /** Whether the processor a submission goes to commits it. */
  predicate Accepted(b: Balances, s: Submission)
  {
    match s
    case SubmitIssue(tx) => tx.account in b
    case SubmitTransfer(tx) => TransferError(b, tx).None?
  }

  /** The store after one submission; a rejected one leaves it as it was. */
  function Step(b: Balances, s: Submission): (r: Balances)
  {
    match s
    case SubmitIssue(tx) => if tx.account in b then Credited(b, tx) else b
    case SubmitTransfer(tx) => if TransferError(b, tx).None? then Moved(b, tx) else b
  }

  /** The event the processor emits when it commits a submission: the
      target with its balance before the update and the transaction's own
      `newValue`, or the two references of a transfer with its amount. */
  function Emitted(b: Balances, s: Submission): (ev: Event)
    requires Accepted(b, s)
  {
    match s
    case SubmitIssue(tx) => Issued(tx.account, b[tx.account], tx.newValue)
    case SubmitTransfer(tx) => Transfered(tx.accountFrom, tx.accountTo, tx.amount)
  }

  /** A transfer of a negative amount passes the balance check whenever the
      source holds at least that (negative) amount, and then takes value out
      of the destination with no check on the destination's balance. */
  lemma NegativeTransferDrainsDestination(b: Balances, tx: TransferTx)
    requires tx.accountFrom in b && tx.accountTo in b && tx.accountFrom != tx.accountTo
    requires tx.amount < 0.0 && b[tx.accountFrom] >= tx.amount
    ensures TransferError(b, tx).None?
    ensures Moved(b, tx)[tx.accountTo] == b[tx.accountTo] + tx.amount < b[tx.accountTo]
    ensures Moved(b, tx)[tx.accountFrom] > b[tx.accountFrom]
  {
  }

  /** The ledger: the account store and the events emitted so far. */
  class Ledger {
    var balances: Balances
    var events: seq<Event>

    constructor (initial: Balances)
      ensures balances == initial && events == []
    {
      balances := initial;
      events := [];
    }

    /** `issue`: credit the target with the amount (no guard on its sign),
        write it back, then emit `Issued` with the balance before the update
        and the transaction's own `newValue`. */
    method Issue(tx: IssueTx) returns (outcome: Outcome)
      modifies this
      ensures outcome.Committed? <==> tx.account in old(balances)
      ensures outcome.Rejected? ==>
        outcome.error == UnknownAccount(tx.account) &&
        balances == old(balances) && events == old(events)
      ensures outcome.Committed? ==>
        balances == Credited(old(balances), tx) &&
        events == old(events) + [Issued(tx.account, old(balances)[tx.account], tx.newValue)]
      ensures Total(balances) ==
        Total(old(balances)) + if outcome.Committed? then tx.amount else 0.0
    {
      if tx.account !in balances {
        return Rejected(UnknownAccount(tx.account));
      }
      var previousValue := balances[tx.account];
      balances := balances[tx.account := previousValue + tx.amount];
      events := events + [Issued(tx.account, previousValue, tx.newValue)];
      IssueEffect(old(balances), tx);
      outcome := Committed;
    }

    /** `transfer`: refuse with "Insufficient funds!" before any change when
        the source holds less than the amount; otherwise debit the source,
        credit the destination, write both back, then emit `Transfered`. */
    method Transfer(tx: TransferTx) returns (outcome: Outcome)
      modifies this
      ensures outcome == match TransferError(old(balances), tx)
                         case None => Committed
                         case Some(e) => Rejected(e)
      ensures outcome.Rejected? ==> balances == old(balances) && events == old(events)
      ensures outcome.Committed? ==>
        balances == Moved(old(balances), tx) &&
        events == old(events) + [Transfered(tx.accountFrom, tx.accountTo, tx.amount)]
      ensures Total(balances) == Total(old(balances))
    {
      if tx.accountFrom !in balances {
        return Rejected(UnknownAccount(tx.accountFrom));
      }
      if tx.accountTo !in balances {
        return Rejected(UnknownAccount(tx.accountTo));
      }
      if balances[tx.accountFrom] < tx.amount {
        return Rejected(Thrown(InsufficientFunds));
      }
      balances := balances[tx.accountFrom := balances[tx.accountFrom] - tx.amount];
      balances := balances[tx.accountTo := balances[tx.accountTo] + tx.amount];
      events := events + [Transfered(tx.accountFrom, tx.accountTo, tx.amount)];
      if tx.accountFrom == tx.accountTo {
        SelfTransferNetsOut(old(balances), tx);
      } else {
        TransferEffect(old(balances), tx);
      }
      outcome := Committed;
    }

    /** Hand a submission to the processor for its kind. The store moves by
        `Step`, and exactly one event is appended when the processor commits. */
    method Submit(s: Submission) returns (outcome: Outcome)
      modifies this
      ensures outcome.Committed? <==> Accepted(old(balances), s)
      ensures balances == Step(old(balances), s)
      ensures outcome.Committed? ==> events == old(events) + [Emitted(old(balances), s)]
      ensures outcome.Rejected? ==> events == old(events)
      ensures outcome.Rejected? && s.SubmitIssue? ==>
        outcome.error == UnknownAccount(s.issue.account)
      ensures outcome.Rejected? && s.SubmitTransfer? ==>
        TransferError(old(balances), s.transfer) == Some(outcome.error)
      ensures Total(balances) == Total(old(balances)) +
        if outcome.Committed? && s.SubmitIssue? then s.issue.amount else 0.0
    {
      match s {
        case SubmitIssue(tx) =>
          outcome := Issue(tx);
        case SubmitTransfer(tx) =>
          outcome := Transfer(tx);
      }
    }
  }

  /** Example runs based on the network's tests, each on a fresh ledger with
      accounts "1" = 10 and "2" = 20. The tests name the transfer's accounts
      `from` and `to`, fields the processor never reads; here they are
      carried in `accountFrom` and `accountTo`. The issue's event carries no
      `newValue`, because the submitted transaction sets none. */
  method Scenarios()
  {
    var ledger := new Ledger(map["1" := 10.0, "2" := 20.0]);
    var outcome := ledger.Issue(IssueTx("1", 42.1337, None));
    assert outcome == Committed && ledger.balances["1"] == 52.1337;
    assert ledger.events == [Issued("1", 10.0, None)];

    ledger := new Ledger(map["1" := 10.0, "2" := 20.0]);
    outcome := ledger.Transfer(TransferTx("1", "2", 0.3));
    assert outcome == Committed;
    assert ledger.balances == map["1" := 9.7, "2" := 20.3];
    assert ledger.events == [Transfered("1", "2", 0.3)];

    ledger := new Ledger(map["1" := 10.0, "2" := 20.0]);
    outcome := ledger.Transfer(TransferTx("1", "2", 10.5));
    assert outcome == Rejected(Thrown(InsufficientFunds));
    assert ledger.balances == map["1" := 10.0, "2" := 20.0] && ledger.events == [];

    ledger := new Ledger(map["1" := 10.0, "2" := 20.0]);
    outcome := ledger.Transfer(TransferTx("2", "1", 0.01));
    assert outcome == Committed;
    assert ledger.balances == map["1" := 10.01, "2" := 19.99];
    assert ledger.events == [Transfered("2", "1", 0.01)];

    ledger := new Ledger(map["1" := 10.0, "2" := 20.0]);
    outcome := ledger.Transfer(TransferTx("2", "1", 20.01));
    assert outcome == Rejected(Thrown(InsufficientFunds));
    assert ledger.balances == map["1" := 10.0, "2" := 20.0] && ledger.events == [];
  }
}
