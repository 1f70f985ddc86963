# Coin ledger transaction processors

A Dafny model of the transaction logic of the `com.amaris.coin` business
network: the `issue` processor credits one account and emits an `Issued`
event; the `transfer` processor refuses with `Insufficient funds!` when the
source account holds less than the amount, and otherwise debits the source,
credits the destination and emits a `Transfered` event.

- `accounts.dfy` (module `Accounts`): the account store as a map from account
  identifier to balance, and `Total`, the sum of all balances, with the lemmas
  that let one balance be taken out of the sum or overwritten.
- `logic.dfy` (module `Logic`): the transactions, events and errors, the
  class `Ledger` whose fields `balances` and `events` are the store and the
  emitted-event stream, and its methods `Issue` and `Transfer`, each one
  atomic step that updates both fields. The functions `Credited`,
  `TransferError` and `Moved` specify those steps; the lemmas about them give
  the balance deltas, the frame and the change in total value. `Submit`
  hands a submission of either kind to its processor and moves the store by
  `Step`. `Scenarios` holds example runs based on the network's tests, each
  on a fresh ledger. The tests name a transfer's accounts `from` and `to`
  (test/logic.js:434-435), fields the processor never reads, so these runs
  carry them in `accountFrom` and `accountTo`.
- `history.dfy` (module `History`): a history of submissions replayed one
  after another by `Step`, the store change of `Ledger.Submit`, with the
  result that only accepted issues change the total value, and that neither
  processor is idempotent.

Modelling choices:

- Amounts are exact `real` numbers.
- A transaction's account references are resolved by the host framework
  before the processor runs. A reference that names no account is modelled
  as the error `UnknownAccount`, which changes nothing. For a transfer, the
  source reference is checked before the destination, and both are checked
  before the balance.
- The `Issued` event's `newValue` is copied from the transaction's own
  `newValue` field, which may be absent. The tests expect the new balance
  there (test/logic.js:300), but the code copies `tx.newValue`
  (lib/logic.js:24). The model follows the code, so it never claims that
  `newValue` equals the new balance.
- `transfer` reads the fields `accountFrom` and `accountTo`, and the model
  does the same.
- Neither processor checks the sign of the amount. A negative issue or a
  negative transfer is applied as written. A negative transfer passes the
  balance check whenever the source holds at least that amount, and then
  lowers the destination's balance with no check on it
  (`NegativeTransferDrainsDestination`).
- In a self-transfer (`accountFrom == accountTo`), both references are taken
  to denote the same record. The debit and the credit then cancel, and the
  event is still emitted. The source does not show how the host resolves two
  references to one account, so this is the model's reading.
  `TransferEffect`, which gives the deltas, the non-negative source and the
  conservation of the pair's sum, requires distinct accounts.
  `SelfTransferNetsOut` states this reading separately. The unchanged total
  claimed by `Ledger.Transfer`, `ReplayTotal` and `TransfersConserveTotal`
  covers self-transfers only through this reading (see "## Left out").

## Model

| member | source | states |
|---|---|---|
| `Logic.Ledger.Issue` | lib/logic.js:8-26 | never throws on any amount; the target is credited (store becomes `Credited(old)`), exactly one `Issued` event is appended with the target, its balance before the update and the transaction's own `newValue`; the total value rises by the amount; an unresolvable account changes nothing |
| `Logic.Ledger.Transfer` | lib/logic.js:33-54 | outcome is `Committed` exactly when `TransferError` finds nothing; a refusal leaves balances and event log untouched; a success makes the store `Moved(old)` and appends exactly one `Transfered(from, to, amount)`; total value is unchanged |
| `Logic.TransferError` | lib/logic.js:35-37 | the transfer goes ahead iff both accounts exist and the source balance is at least the amount; it fails with "Insufficient funds!" iff both exist and the source balance is below the amount; every refusal is either an unknown account or that message; an unknown-account error names one of the two references that is missing |
| `Logic.Ledger.Submit` | lib/logic.js:8-54 | a submission commits exactly when its processor accepts it; the store becomes `Step(old)`, the store change the replay lemmas reason about; a commit appends exactly the event its processor emits (`Emitted`: `Issued` with the target, its old balance and the transaction's `newValue`, or `Transfered` with both references and the amount) and a refusal appends none; a refused issue reports its unknown account and a refused transfer reports `TransferError`'s verdict, "Insufficient funds!" included; the total rises by the amount of a committed issue and otherwise stays the same |
| `Logic.IssueEffect` | lib/logic.js:10-18 | after an issue the target's balance is its old balance plus the amount, every other account and the key set are unchanged, and the total grows by the amount |
| `Logic.TransferEffect` | lib/logic.js:35-46 | for distinct accounts that pass the check: source decreases and destination increases by the amount, no other account changes, the source stays non-negative, and both the pair's sum and the store's total are conserved |
| `Logic.SelfTransferNetsOut` | lib/logic.js:40-41 | debiting and crediting one and the same account leaves the store as it was |
| `Accounts.TotalUpdate` | lib/logic.js:40-41 | writing one existing account's balance changes the store's total by exactly the new value minus the old |
| `History.ReplayKeepsAccounts` | lib/logic.js:8-54 | no sequence of issues and transfers adds or removes accounts |
| `History.ReplayTotal` | lib/logic.js:8-54 | after any sequence of submissions the total is the starting total plus the amounts of the accepted issues; transfers and refusals add nothing |
| `History.TransfersConserveTotal` | lib/logic.js:33-54 | any number of transfers, accepted or refused, leaves the total value unchanged |
| `Logic.NegativeTransferDrainsDestination` | lib/logic.js:35-41 | with no sign check on the amount, a negative transfer between distinct accounts passes the balance check whenever the source holds at least the amount, then lowers the destination by its magnitude with no check on the destination, and raises the source |
| `History.IssueTwiceCreditsTwice` | lib/logic.js:10-13 | resubmitting the same issue credits the amount again (twice the amount in all), so a non-zero issue is not idempotent |
| `History.TransferTwiceMovesTwice` | lib/logic.js:35-41 | resubmitting a transfer that passes the check again moves the amount a second time |

## Left out

- Persistence through the asset registry (`getAssetRegistry`, `update`, `updateAll`) is modelled as the assignment to `balances`. Its permission failures and its batching are not modelled, because they belong to the host framework.
- Event creation and delivery (`getFactory().newEvent`, `emit`) is modelled as appending to `events`. Event ids, timestamps and fully-qualified identifiers are generated by the framework and are left out.
- `async`/`await` is not modelled. Each processor is one atomic step, because neither body interleaves with anything it can observe.
- JavaScript floating-point arithmetic is not modelled. Amounts are exact reals, so `10 - 0.3` is exactly `9.7` here. Rounding, `NaN` and infinities are a deliberate simplification.
- Identity, access control and the network's test harness (card import, deployment, registry CRUD) belong to the host framework and are not modelled.
- Logic.Ledger.Transfer, History.TransfersConserveTotal, History.ReplayTotal: for a self-transfer (`accountFrom == accountTo`) the unchanged total rests on the reading that both references resolve to one record, so the debit and the credit cancel. If the host resolved them to two separate records, `updateAll` would leave the account at its old balance plus the amount. The source does not show which happens. A non-negative source after a transfer is claimed only for distinct accounts (`TransferEffect`): a self-transfer of a negative amount from a negative balance commits and leaves that balance negative.
- The order in which the host resolves the two references of a transfer is not visible. The model checks the source first.
