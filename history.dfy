/**
 * A ledger's history as the sequence of submissions it processed, one
 * processor run each, and what that history does to the total value held.
 */
module History {
  import opened Accounts
  import opened Logic

  /** The store after processing the submissions one after another. */
  function Replay(b: Balances, ss: seq<Submission>): (r: Balances)
    decreases |ss|
  {
    if ss == [] then b else Replay(Step(b, ss[0]), ss[1..])
  }

  /** The value the issues among `ss` bring into a store whose accounts are
      `accounts`: issues that name no account are rejected and add nothing. */
  function Minted(accounts: set<AccountId>, ss: seq<Submission>): (r: real)
    decreases |ss|
  {
    if ss == [] then 0.0
    else
      var here := match ss[0]
        case SubmitIssue(tx) => if tx.account in accounts then tx.amount else 0.0
        case SubmitTransfer(_) => 0.0;
      here + Minted(accounts, ss[1..])
  }

  /** Neither processor creates or deletes accounts. */
  lemma {:induction false} ReplayKeepsAccounts(b: Balances, ss: seq<Submission>)
    ensures Replay(b, ss).Keys == b.Keys
    decreases |ss|
  {
    if ss != [] {
      ReplayKeepsAccounts(Step(b, ss[0]), ss[1..]);
    }
  }

  /** Only issues change the total value: after any history it is the
      starting total plus what the accepted issues minted. */
  lemma {:induction false} ReplayTotal(b: Balances, ss: seq<Submission>)
    ensures Total(Replay(b, ss)) == Total(b) + Minted(b.Keys, ss)
    decreases |ss|
  {
    if ss != [] {
      var next := Step(b, ss[0]);
      match ss[0] {
        case SubmitIssue(tx) =>
          if tx.account in b { IssueEffect(b, tx); }
        case SubmitTransfer(tx) =>
          if TransferError(b, tx).None? {
            if tx.accountFrom == tx.accountTo {
              SelfTransferNetsOut(b, tx);
            } else {
              TransferEffect(b, tx);
            }
          }
      }
      assert next.Keys == b.Keys;
      ReplayTotal(next, ss[1..]);
    }
  }

  /** Any number of transfers, accepted or refused, leaves the total as it was. */
  lemma {:induction false} TransfersConserveTotal(b: Balances, ss: seq<Submission>)
    requires forall i :: 0 <= i < |ss| ==> ss[i].SubmitTransfer?
    ensures Total(Replay(b, ss)) == Total(b)
  {
    ReplayTotal(b, ss);
    NothingMinted(b.Keys, ss);
  }

  lemma {:induction false} NothingMinted(accounts: set<AccountId>, ss: seq<Submission>)
    requires forall i :: 0 <= i < |ss| ==> ss[i].SubmitTransfer?
    ensures Minted(accounts, ss) == 0.0
    decreases |ss|
  {
    if ss != [] {
      NothingMinted(accounts, ss[1..]);
    }
  }

  /** Issue is not idempotent: submitting the same issue twice credits the
      amount twice, so a non-zero resubmission changes the store again. */
  lemma IssueTwiceCreditsTwice(b: Balances, tx: IssueTx)
    requires tx.account in b
    ensures tx.account in Step(Step(b, SubmitIssue(tx)), SubmitIssue(tx))
    ensures Step(Step(b, SubmitIssue(tx)), SubmitIssue(tx))[tx.account] ==
      b[tx.account] + 2.0 * tx.amount
    ensures tx.amount != 0.0 ==>
      Step(Step(b, SubmitIssue(tx)), SubmitIssue(tx)) != Step(b, SubmitIssue(tx))
  {
  }

  /** Transfer is not idempotent either: a second identical submission that
      passes the check moves the amount again. */
  lemma TransferTwiceMovesTwice(b: Balances, tx: TransferTx)
    requires TransferError(b, tx).None?
    requires TransferError(Moved(b, tx), tx).None?
    requires tx.accountFrom != tx.accountTo
    ensures Step(Step(b, SubmitTransfer(tx)), SubmitTransfer(tx))[tx.accountFrom] ==
      b[tx.accountFrom] - 2.0 * tx.amount
    ensures Step(Step(b, SubmitTransfer(tx)), SubmitTransfer(tx))[tx.accountTo] ==
      b[tx.accountTo] + 2.0 * tx.amount
  {
  }
}
