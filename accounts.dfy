/**
 * The account store the transaction processors work on: a table from account
 * identifier to balance, and the total value it holds.
 */
module Accounts {

  /** The identifier of an account (the asset's primary key). */
  type AccountId = string

  /** Balances are exact rationals: no rounding ever happens in this model. */
  type Balances = map<AccountId, real>

  /** The sum of every balance in the store. */
  ghost function Total(b: Balances): (r: real)
    decreases |b|
  {
    if b == map[] then 0.0
    else
      var k :| k in b;
      assert |b - {k}| < |b| by { assert (b - {k}).Keys == b.Keys - {k}; }
      b[k] + Total(b - {k})
  }

  /** Any one account can be taken out of the total first. */
  lemma {:induction false} TotalRemove(b: Balances, k: AccountId)
    requires k in b
    ensures Total(b) == b[k] + Total(b - {k})
    decreases |b|
  {
    var j :| j in b && Total(b) == b[j] + Total(b - {j});
    if j != k {
      assert (b - {j}).Keys == b.Keys - {j};
      assert (b - {k}).Keys == b.Keys - {k};
      TotalRemove(b - {j}, k);
      TotalRemove(b - {k}, j);
      assert b - {j} - {k} == b - {k} - {j};
    }
  }

  /** Overwriting one existing balance changes the total by exactly the difference. */
  lemma TotalUpdate(b: Balances, k: AccountId, v: real)
    requires k in b
    ensures Total(b[k := v]) == Total(b) - b[k] + v
  {
    TotalRemove(b, k);
    TotalRemove(b[k := v], k);
    assert b[k := v] - {k} == b - {k};
  }
}
