/**
 * The charge service: `reset` and `charge` over the balance store, the input
 * validation of `charge`, and the defaults the `/reset` and `/charge` handlers
 * apply to the request body. Amounts are in cents.
 */
module ChargeService {
  import opened Wrappers
  import opened ChargeScript
  import opened Store

  /** The account a handler uses when the body names none. */
  const DefaultAccount: string := "account"

  /** The amount `/charge` debits when the body gives none: 10 units, in cents. */
  const DefaultCharges: int := 1000

  /** A property of the JSON request body: missing, explicitly null, or given. */
  datatype Field<+T> = Absent | Null | Given(value: T)

  /** The `charges` value: a JSON number (in cents), or a value whose `typeof` is not "number". */
  datatype Amount = Number(cents: int) | NotNumber

  datatype ChargeError = InvalidParameters | ScriptFailed(error: ScriptError)

  datatype ResetBody = ResetBody(account: Field<string>)

  datatype ChargeBody = ChargeBody(account: Field<string>, charges: Field<Amount>)

  /** JavaScript's `field ?? fallback`: only a missing or null value is replaced; "" and 0 are kept. */
  function Nullish<T>(field: Field<T>, fallback: T): (v: T)
    ensures field.Given? ==> v == field.value
    ensures !field.Given? ==> v == fallback
  {
    match field
    case Given(x) => x
    case _ => fallback
  }

  /**
   * The guard of `charge`: the account must be non-empty and `charges` a positive
   * number. On success it yields the amount to debit.
   */
  function ValidateCharge(account: string, charges: Amount): (r: Result<int, ChargeError>)
    ensures r.Success? <==> account != "" && charges.Number? && charges.cents > 0
    ensures r.Success? ==> r.value == charges.cents
    ensures r.Failure? ==> r.error == InvalidParameters
  {
    if account == "" || !charges.Number? || charges.cents <= 0 then
      Failure(InvalidParameters)
    else
      Success(charges.cents)
  }

  /** What `charge(account, charges)` returns when the store holds `balances`. */
  function ChargeResult(balances: map<string, int>, account: string, charges: Amount): (r: Result<Outcome, ChargeError>)
    ensures ValidateCharge(account, charges).Failure? ==> r == Failure(InvalidParameters)
    ensures ValidateCharge(account, charges).Success? && BalanceKey(account) !in balances
            ==> r == Failure(ScriptFailed(CompareNilWithNumber))
    ensures r.Success? <==> ValidateCharge(account, charges).Success? && BalanceKey(account) in balances
    ensures r.Success? ==> IsDebitOf(r.value, balances[BalanceKey(account)], charges.cents)
  {
    match ValidateCharge(account, charges)
    case Failure(e) => Failure(e)
    case Success(amount) =>
      match RunScript(balances, BalanceKey(account), amount)
      case Failure(e) => Failure(ScriptFailed(e))
      case Success(o) => Success(o)
  }

  /**
   * The store after `charge(account, charges)`: a failed call leaves it as it was;
   * a successful one changes at most the account's own key, to the remaining balance.
   */
  function ChargedBalances(balances: map<string, int>, account: string, charges: Amount): (after: map<string, int>)
    ensures ChargeResult(balances, account, charges).Failure? ==> after == balances
    ensures ChargeResult(balances, account, charges).Success?
            ==> after == balances[BalanceKey(account) := ChargeResult(balances, account, charges).value.remainingBalance]
    ensures NonNegative(balances) ==> NonNegative(after)
  {
    match ValidateCharge(account, charges)
    case Failure(_) => balances
    case Success(amount) => Debited(balances, BalanceKey(account), amount)
  }

  /**
   * `charge`: validate, run the script on the account's key, and hand back the
   * shaped reply unchanged.
   */
  method Charge(store: BalanceStore, account: string, charges: Amount) returns (r: Result<Outcome, ChargeError>)
    modifies store
    ensures r == ChargeResult(old(store.balances), account, charges)
    ensures store.balances == ChargedBalances(old(store.balances), account, charges)
  {
    var valid := ValidateCharge(account, charges);
    if valid.Failure? {
      return Failure(valid.error);
    }
    var reply := store.TryDebit(BalanceKey(account), valid.value);
    match reply {
      case Failure(e) =>
        r := Failure(ScriptFailed(e));
      case Success(table) =>
        TransformReplyOfEncodeReply(RunScript(old(store.balances), BalanceKey(account), valid.value).value);
        r := Success(TransformReply(table).value);
    }
  }

  /** A request to the service: `/reset` or `/charge` with its body. */
  datatype Request = ResetRequest(resetBody: ResetBody) | ChargeRequest(chargeBody: ChargeBody)

  /** The store after the service has handled `request`: the effect of `HandleReset` or `HandleCharge`. */
  function Handle(balances: map<string, int>, request: Request): (after: map<string, int>)
    ensures NonNegative(balances) ==> NonNegative(after)
  {
    match request
    case ResetRequest(body) => ResetBalances(balances, Nullish(body.account, DefaultAccount))
    case ChargeRequest(body) => ChargedBalances(balances, Nullish(body.account, DefaultAccount), Nullish(body.charges, Number(DefaultCharges)))
  }

  /** What the handler answers: nothing beyond the status for `/reset`, the charge result for `/charge`. */
  function Respond(balances: map<string, int>, request: Request): (r: Option<Result<Outcome, ChargeError>>)
    ensures r.None? <==> request.ResetRequest?
    ensures request.ChargeRequest? ==> r.value == ChargeResult(balances, Nullish(request.chargeBody.account, DefaultAccount),
                                                               Nullish(request.chargeBody.charges, Number(DefaultCharges)))
  {
    match request
    case ResetRequest(_) => None
    case ChargeRequest(body) => Some(ChargeResult(balances, Nullish(body.account, DefaultAccount), Nullish(body.charges, Number(DefaultCharges))))
  }

  /** The `/reset` handler, up to the HTTP response. */
  method HandleReset(store: BalanceStore, body: ResetBody)
    modifies store
    ensures store.balances == ResetBalances(old(store.balances), Nullish(body.account, DefaultAccount))
    ensures store.balances == Handle(old(store.balances), ResetRequest(body))
  {
    var account := Nullish(body.account, DefaultAccount);
    store.Reset(account);
  }

  /** The `/charge` handler, up to the HTTP response. */
  method HandleCharge(store: BalanceStore, body: ChargeBody) returns (r: Result<Outcome, ChargeError>)
    modifies store
    ensures r == ChargeResult(old(store.balances), Nullish(body.account, DefaultAccount), Nullish(body.charges, Number(DefaultCharges)))
    ensures store.balances == ChargedBalances(old(store.balances), Nullish(body.account, DefaultAccount), Nullish(body.charges, Number(DefaultCharges)))
    ensures store.balances == Handle(old(store.balances), ChargeRequest(body))
    ensures Some(r) == Respond(old(store.balances), ChargeRequest(body))
  {
    var account := Nullish(body.account, DefaultAccount);
    r := Charge(store, account, Nullish(body.charges, Number(DefaultCharges)));
  }

  /** An empty body charges the default amount to the default account. */
  lemma EmptyBodyUsesDefaults(balances: map<string, int>)
    ensures ChargeResult(balances, Nullish(Absent, DefaultAccount), Nullish(Absent, Number(DefaultCharges)))
            == ChargeResult(balances, "account", Number(1000))
    ensures ChargeResult(balances, Nullish(Null, DefaultAccount), Nullish(Null, Number(DefaultCharges)))
            == ChargeResult(balances, "account", Number(1000))
    ensures Nullish(Absent, DefaultAccount) == Nullish(Null, DefaultAccount) == "account"
  {
  }

  /**
   * An empty account is given, not missing, so `??` keeps it: `/charge` then fails
   * validation and leaves the store alone, and `/reset` resets the key "/balance".
   */
  lemma EmptyAccountIsNotDefaulted(balances: map<string, int>, charges: Field<Amount>)
    ensures ChargeResult(balances, Nullish(Given(""), DefaultAccount), Nullish(charges, Number(DefaultCharges)))
            == Failure(InvalidParameters)
    ensures ChargedBalances(balances, Nullish(Given(""), DefaultAccount), Nullish(charges, Number(DefaultCharges)))
            == balances
    ensures ResetBalances(balances, Nullish(Given(""), DefaultAccount)) == balances["/balance" := DefaultBalance]
  {
  }
}
