/**
 * The Redis balance store: one balance in cents per key, reset to the default
 * balance and debited only by the charge script.
 */
module Store {
  import opened Wrappers
  import opened ChargeScript

  /** DEFAULT_BALANCE, 100 units, in cents. */
  const DefaultBalance: int := 10000

  const BalanceSuffix: string := "/balance"

  /** The key that holds an account's balance: the account followed by "/balance". */
  function BalanceKey(account: string): (key: string)
    ensures |key| == |account| + |BalanceSuffix|
    ensures key[..|account|] == account && key[|account|..] == BalanceSuffix
  {
    account + BalanceSuffix
  }

  /** Distinct accounts never share a balance, and one account always uses the same key. */
  lemma BalanceKeyInjective(a: string, b: string)
    ensures BalanceKey(a) == BalanceKey(b) <==> a == b
  {
  }

  predicate NonNegative(balances: map<string, int>) {
    forall k :: k in balances ==> balances[k] >= 0
  }

  /** The store after an account has been reset: its key holds the default, nothing else changes. */
  function ResetBalances(balances: map<string, int>, account: string): (after: map<string, int>)
    ensures after.Keys == balances.Keys + {BalanceKey(account)}
    ensures after[BalanceKey(account)] == DefaultBalance
    ensures forall k :: k in balances && k != BalanceKey(account) ==> after[k] == balances[k]
    ensures NonNegative(balances) ==> NonNegative(after)
  {
    balances[BalanceKey(account) := DefaultBalance]
  }

  /** Resetting twice leaves the store as resetting once does. */
  lemma ResetIdempotent(balances: map<string, int>, account: string)
    ensures ResetBalances(ResetBalances(balances, account), account) == ResetBalances(balances, account)
  {
  }

  class BalanceStore {
    var balances: map<string, int>

    /** A store that holds no keys yet. */
    constructor ()
      ensures balances == map[]
    {
      balances := map[];
    }

    /** `reset`: SET `<account>/balance` to the default balance. */
    method Reset(account: string)
      modifies this
      ensures balances == ResetBalances(old(balances), account)
      ensures NonNegative(old(balances)) ==> NonNegative(balances)
    {
      balances := balances[BalanceKey(account) := DefaultBalance];
    }

    /**
     * The charge script, run as one step: read the balance at `key`; if it covers
     * `amount`, decrement it by `amount` and read it again; reply with the flag and
     * the three formatted amounts.
     */
    method TryDebit(key: string, amount: int) returns (r: Result<ScriptReply, ScriptError>)
      modifies this
      ensures r == EncodeResult(RunScript(old(balances), key, amount))
      ensures balances == Debited(old(balances), key, amount)
      ensures NonNegative(old(balances)) && amount > 0 ==> NonNegative(balances)
    {
      if key !in balances {
        return Failure(CompareNilWithNumber);
      }
      var initialBalance := balances[key];
      var accountCharged := false;
      var remainingBalance := initialBalance;
      if initialBalance >= amount {
        balances := balances[key := balances[key] - amount];
        remainingBalance := balances[key];
        accountCharged := true;
      }
      var charges := initialBalance - remainingBalance;
      ghost var outcome := Outcome(accountCharged, initialBalance, remainingBalance, charges);
      assert outcome == RunScript(old(balances), key, amount).value;
      r := Success(EncodeReply(Outcome(accountCharged, initialBalance, remainingBalance, charges)));
    }
  }
}
