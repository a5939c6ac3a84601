/**
 * The server-side charge script and the shaping of its reply.
 *
 * Redis runs the script as one indivisible step, so one call of it is modelled as
 * one function of the store's contents: `RunScript` gives what the script returns,
 * `Debited` what the store holds afterwards. Balances and amounts are in cents.
 */
module ChargeScript {
  import opened Wrappers
  import Decimal

  /** The four values one charge attempt reports. */
  datatype Outcome = Outcome(isAuthorized: bool, initialBalance: int, remainingBalance: int, charges: int)

  /**
   * The one way the script fails: GET on a key that holds nothing gives a nil
   * reply, which reaches Lua as `false`; `tonumber(false)` is nil, and Lua
   * refuses to compare nil with a number.
   */
  datatype ScriptError = CompareNilWithNumber

  /**
   * What a correct attempt to debit `amount` from `initial` reports: it is granted
   * exactly when the balance covers the amount, it never charges part of the
   * amount, and what it charges is what leaves the balance.
   */
  predicate IsDebitOf(o: Outcome, initial: int, amount: int) {
    && o.initialBalance == initial
    && (o.isAuthorized <==> initial >= amount)
    && o.charges == (if o.isAuthorized then amount else 0)
    && o.initialBalance - o.remainingBalance == o.charges
  }

  /** The description above leaves no freedom: it fixes all four values. */
  lemma DebitOutcomeIsUnique(o1: Outcome, o2: Outcome, initial: int, amount: int)
    requires IsDebitOf(o1, initial, amount) && IsDebitOf(o2, initial, amount)
    ensures o1 == o2
  {
  }

  /** The value the script returns when run on `balances` with KEYS[1] = key and ARGV[1] = amount. */
  function RunScript(balances: map<string, int>, key: string, amount: int): (r: Result<Outcome, ScriptError>)
    ensures r.Failure? <==> key !in balances
    ensures r.Success? ==> IsDebitOf(r.value, balances[key], amount)
  {
    if key !in balances then
      Failure(CompareNilWithNumber)
    else if balances[key] >= amount then
      Success(Outcome(true, balances[key], balances[key] - amount, amount))
    else
      Success(Outcome(false, balances[key], balances[key], 0))
  }

  /** The store after the script has run on it. */
  function Debited(balances: map<string, int>, key: string, amount: int): (after: map<string, int>)
    ensures after.Keys == balances.Keys
    ensures forall k :: k in balances && k != key ==> after[k] == balances[k]
    ensures key in balances ==> after[key] == RunScript(balances, key, amount).value.remainingBalance
    ensures (RunScript(balances, key, amount).Failure? || !RunScript(balances, key, amount).value.isAuthorized)
            ==> after == balances
  {
    if key in balances && balances[key] >= amount then balances[key := balances[key] - amount] else balances
  }

  /** A debit of a positive amount from a non-negative balance leaves it non-negative. */
  lemma DebitKeepsNonNegative(balances: map<string, int>, key: string, amount: int)
    requires key in balances && balances[key] >= 0 && amount > 0
    ensures Debited(balances, key, amount)[key] >= 0
    ensures RunScript(balances, key, amount).value.remainingBalance >= 0
  {
  }

  /** One element of the script's reply, as Redis converts a Lua value. */
  datatype RedisValue = IntegerReply(n: int) | NilReply | BulkReply(s: string)

  /** The reply table `{accountCharged, initial, remaining, charges}`. */
  datatype ScriptReply = ScriptReply(accountCharged: RedisValue, initialBalance: string, remainingBalance: string, charges: string)

  /**
   * The table the script returns: Lua `true` becomes the integer 1, Lua `false`
   * becomes a nil reply, and the three amounts are formatted with "%.2f".
   */
  function EncodeReply(o: Outcome): (reply: ScriptReply)
    ensures reply.accountCharged == if o.isAuthorized then IntegerReply(1) else NilReply
    ensures Decimal.ParseCents(reply.initialBalance) == Some(o.initialBalance)
    ensures Decimal.ParseCents(reply.remainingBalance) == Some(o.remainingBalance)
    ensures Decimal.ParseCents(reply.charges) == Some(o.charges)
  {
    Decimal.ParseCentsOfFormatCents(o.initialBalance);
    Decimal.ParseCentsOfFormatCents(o.remainingBalance);
    Decimal.ParseCentsOfFormatCents(o.charges);
    ScriptReply(if o.isAuthorized then IntegerReply(1) else NilReply,
                Decimal.FormatCents(o.initialBalance),
                Decimal.FormatCents(o.remainingBalance),
                Decimal.FormatCents(o.charges))
  }

  /** The script's return value as the client receives it: an error, or the encoded table. */
  function EncodeResult(r: Result<Outcome, ScriptError>): (wire: Result<ScriptReply, ScriptError>)
    ensures wire.Failure? <==> r.Failure?
    ensures wire.Failure? ==> wire.error == r.error
    ensures wire.Success? ==> wire.value == EncodeReply(r.value)
  {
    match r
    case Success(o) => Success(EncodeReply(o))
    case Failure(e) => Failure(e)
  }

  /** JavaScript's `Boolean(v)` on the client's rendering of a reply element. */
  function JsBoolean(v: RedisValue): (b: bool)
    ensures v.NilReply? ==> !b
    ensures v.IntegerReply? ==> (b <==> v.n != 0)
  {
    match v
    case IntegerReply(n) => n != 0
    case NilReply => false
    case BulkReply(s) => s != ""
  }

  /** The client's `transformReply`; None when a field would parse to NaN. */
  function TransformReply(reply: ScriptReply): (r: Option<Outcome>)
    ensures r.Some? ==> r.value.isAuthorized == JsBoolean(reply.accountCharged)
    ensures r.Some? ==> && Decimal.ParseCents(reply.initialBalance) == Some(r.value.initialBalance)
                        && Decimal.ParseCents(reply.remainingBalance) == Some(r.value.remainingBalance)
                        && Decimal.ParseCents(reply.charges) == Some(r.value.charges)
    ensures r.Some? <==> Decimal.ParseCents(reply.initialBalance).Some?
                         && Decimal.ParseCents(reply.remainingBalance).Some?
                         && Decimal.ParseCents(reply.charges).Some?
  {
    match (Decimal.ParseCents(reply.initialBalance), Decimal.ParseCents(reply.remainingBalance), Decimal.ParseCents(reply.charges))
    case (Some(initial), Some(remaining), Some(charges)) =>
      Some(Outcome(JsBoolean(reply.accountCharged), initial, remaining, charges))
    case _ => None
  }

  /** Shaping the reply undoes the script's encoding: the caller sees the outcome unchanged. */
  lemma TransformReplyOfEncodeReply(o: Outcome)
    ensures TransformReply(EncodeReply(o)) == Some(o)
  {
    Decimal.ParseCentsOfFormatCents(o.initialBalance);
    Decimal.ParseCentsOfFormatCents(o.remainingBalance);
    Decimal.ParseCentsOfFormatCents(o.charges);
  }
}
