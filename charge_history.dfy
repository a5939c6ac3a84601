/**
 * Sequences of calls. Redis runs each charge script as one step, so any
 * interleaving of concurrent requests is some sequence of whole calls; these
 * functions replay such a sequence and the lemmas state what holds of every one.
 */
module ChargeHistory {
  import opened Wrappers
  import opened ChargeScript
  import opened Store
  import opened ChargeService

  /** The outcomes of running the script on `key` once per amount, in order. */
  function Replay(balances: map<string, int>, key: string, amounts: seq<int>): (outcomes: seq<Result<Outcome, ScriptError>>)
    ensures |outcomes| == |amounts|
    decreases |amounts|
  {
    if amounts == [] then []
    else [RunScript(balances, key, amounts[0])] + Replay(Debited(balances, key, amounts[0]), key, amounts[1..])
  }

  /** The store after those runs. */
  function After(balances: map<string, int>, key: string, amounts: seq<int>): (after: map<string, int>)
    ensures after.Keys == balances.Keys
    decreases |amounts|
  {
    if amounts == [] then balances
    else After(Debited(balances, key, amounts[0]), key, amounts[1..])
  }

  /** How many of the outcomes were authorized debits. */
  function AuthorizedCount(outcomes: seq<Result<Outcome, ScriptError>>): (count: nat) {
    if outcomes == [] then 0
    else (if outcomes[0].Success? && outcomes[0].value.isAuthorized then 1 else 0) + AuthorizedCount(outcomes[1..])
  }

  /** The sum of the charges the outcomes report. */
  function TotalCharged(outcomes: seq<Result<Outcome, ScriptError>>): (total: int) {
    if outcomes == [] then 0
    else (if outcomes[0].Success? then outcomes[0].value.charges else 0) + TotalCharged(outcomes[1..])
  }

  predicate Positive(amounts: seq<int>) {
    forall i :: 0 <= i < |amounts| ==> amounts[i] > 0
  }

  /** `n` copies of `x`: `n` concurrent requests that are all alike, in whatever order they ran. */
  function Repeat<T>(x: T, n: nat): (s: seq<T>)
    ensures |s| == n && forall i :: 0 <= i < n ==> s[i] == x
  {
    if n == 0 then [] else [x] + Repeat(x, n - 1)
  }

  function Min(x: int, y: int): (m: int) {
    if x <= y then x else y
  }

  /** Positive debits never drive any balance of the store below zero, nor report one. */
  lemma {:induction false} ReplayKeepsNonNegative(balances: map<string, int>, key: string, amounts: seq<int>)
    requires NonNegative(balances) && Positive(amounts)
    ensures NonNegative(After(balances, key, amounts))
    ensures forall i :: 0 <= i < |amounts| && Replay(balances, key, amounts)[i].Success?
                        ==> Replay(balances, key, amounts)[i].value.remainingBalance >= 0
  {
    if amounts != [] {
      var next := Debited(balances, key, amounts[0]);
      assert NonNegative(next);
      assert Positive(amounts[1..]) by {
        forall i | 0 <= i < |amounts| - 1 ensures amounts[1..][i] > 0 {
          assert amounts[1..][i] == amounts[i + 1];
        }
      }
      ReplayKeepsNonNegative(next, key, amounts[1..]);
      var outcomes := Replay(balances, key, amounts);
      forall i | 0 <= i < |amounts| && outcomes[i].Success?
        ensures outcomes[i].value.remainingBalance >= 0
      {
        if i > 0 {
          assert outcomes[i] == Replay(next, key, amounts[1..])[i - 1];
        }
      }
    }
  }

  /**
   * The runs on a key that holds a balance form one chain: each is a correct debit
   * of its amount, the first starts from the stored balance, each starts where the
   * previous one left off, and the last leaves what the store then holds.
   */
  lemma {:induction false} ReplayIsChain(balances: map<string, int>, key: string, amounts: seq<int>)
    requires key in balances
    ensures var o := Replay(balances, key, amounts);
      && key in After(balances, key, amounts)
      && (forall i :: 0 <= i < |o| ==> o[i].Success? && IsDebitOf(o[i].value, o[i].value.initialBalance, amounts[i]))
      && (|o| > 0 ==> o[0].value.initialBalance == balances[key])
      && (forall i :: 0 < i < |o| ==> o[i].value.initialBalance == o[i - 1].value.remainingBalance)
      && (|o| > 0 ==> o[|o| - 1].value.remainingBalance == After(balances, key, amounts)[key])
      && (|o| == 0 ==> After(balances, key, amounts)[key] == balances[key])
  {
    if amounts != [] {
      var next := Debited(balances, key, amounts[0]);
      var rest := Replay(next, key, amounts[1..]);
      ReplayIsChain(next, key, amounts[1..]);
      var o := Replay(balances, key, amounts);
      assert o == [RunScript(balances, key, amounts[0])] + rest;
      forall i | 0 < i < |o| ensures o[i] == rest[i - 1] && amounts[i] == amounts[1..][i - 1] { }
      if |rest| > 0 {
        assert rest[0].value.initialBalance == next[key] == o[0].value.remainingBalance;
      }
    }
  }

  /** Over the whole sequence, the balance falls by exactly the sum of the charges reported. */
  lemma {:induction false} ReplayConserves(balances: map<string, int>, key: string, amounts: seq<int>)
    requires key in balances
    ensures key in After(balances, key, amounts)
    ensures balances[key] - After(balances, key, amounts)[key] == TotalCharged(Replay(balances, key, amounts))
  {
    if amounts != [] {
      var next := Debited(balances, key, amounts[0]);
      ReplayConserves(next, key, amounts[1..]);
      var o := Replay(balances, key, amounts);
      assert o[1..] == Replay(next, key, amounts[1..]);
    }
  }

  /** Runs on one key leave every other key, and the set of keys, as they were. */
  lemma {:induction false} ReplayTouchesOnlyKey(balances: map<string, int>, key: string, amounts: seq<int>)
    ensures After(balances, key, amounts).Keys == balances.Keys
    ensures forall k :: k in balances && k != key ==> After(balances, key, amounts)[k] == balances[k]
  {
    if amounts != [] {
      ReplayTouchesOnlyKey(Debited(balances, key, amounts[0]), key, amounts[1..]);
    }
  }

  /** On a key that was never reset every run fails and the store is left as it was. */
  lemma {:induction false} ReplayWithoutBalance(balances: map<string, int>, key: string, amounts: seq<int>)
    requires key !in balances
    ensures After(balances, key, amounts) == balances
    ensures forall i :: 0 <= i < |amounts| ==> Replay(balances, key, amounts)[i] == Failure(CompareNilWithNumber)
  {
    if amounts != [] {
      ReplayWithoutBalance(balances, key, amounts[1..]);
      var o := Replay(balances, key, amounts);
      forall i | 0 < i < |amounts| ensures o[i] == Replay(balances, key, amounts[1..])[i - 1] { }
    }
  }

  /**
   * `n` debits of the same positive amount `a` from a balance `b >= 0`, in any
   * order: exactly min(n, b / a) are authorized, and they take exactly that many
   * times `a` from the balance.
   */
  lemma {:induction false} EqualChargesAuthorized(balances: map<string, int>, key: string, a: int, n: nat)
    requires key in balances && balances[key] >= 0 && a > 0
    ensures key in After(balances, key, Repeat(a, n))
    ensures AuthorizedCount(Replay(balances, key, Repeat(a, n))) == Min(n, balances[key] / a)
    ensures After(balances, key, Repeat(a, n))[key] == balances[key] - Min(n, balances[key] / a) * a
  {
    if n > 0 {
      var amounts := Repeat(a, n);
      assert amounts[0] == a && amounts[1..] == Repeat(a, n - 1);
      var b := balances[key];
      var next := Debited(balances, key, a);
      EqualChargesAuthorized(next, key, a, n - 1);
      var o := Replay(balances, key, amounts);
      assert o[0] == RunScript(balances, key, a);
      assert o[1..] == Replay(next, key, Repeat(a, n - 1));
      if b >= a {
        assert next[key] == b - a;
        DivAfterSubtract(b, a);
        MulStep(Min(n - 1, b / a - 1), a);
      } else {
        assert next == balances;
      }
    }
  }

  lemma DivAfterSubtract(b: int, a: int)
    requires b >= a > 0
    ensures (b - a) / a == b / a - 1
  {
    var q, r := b / a, b % a;
    MulStep(q - 1, a);
    DivUnique(b - a, a, q - 1, r);
  }

  /** Division is determined by quotient and remainder. */
  lemma DivUnique(x: int, a: int, q: int, r: int)
    requires a > 0 && 0 <= r < a && x == q * a + r
    ensures x / a == q
  {
    var q', r' := x / a, x % a;
    if q' < q {
      MulAtLeast(q - q', a);
      MulDiff(q, q', a);
    } else if q' > q {
      MulAtLeast(q' - q, a);
      MulDiff(q', q, a);
    }
  }

  lemma MulAtLeast(d: int, a: int)
    requires d >= 1 && a > 0
    ensures d * a >= a
  {
  }

  lemma MulDiff(x: int, y: int, a: int)
    ensures (x - y) * a == x * a - y * a
  {
  }

  lemma MulStep(k: int, a: int)
    ensures (k + 1) * a == k * a + a
  {
  }

  /** The store after the service has handled the requests one after another. */
  function Serve(balances: map<string, int>, requests: seq<Request>): (after: map<string, int>)
    ensures balances.Keys <= after.Keys
    decreases |requests|
  {
    if requests == [] then balances else Serve(Handle(balances, requests[0]), requests[1..])
  }

  /** The keys the `/reset` requests among `requests` write. */
  function ResetKeys(requests: seq<Request>): (keys: set<string>) {
    set i | 0 <= i < |requests| && requests[i].ResetRequest? :: BalanceKey(Nullish(requests[i].resetBody.account, DefaultAccount))
  }

  /** Only `/reset` creates a balance: every key after the requests was there before or was reset by one of them. */
  lemma {:induction false} ServeAddsOnlyResetKeys(balances: map<string, int>, requests: seq<Request>)
    ensures Serve(balances, requests).Keys <= balances.Keys + ResetKeys(requests)
    decreases |requests|
  {
    if requests != [] {
      var next := Handle(balances, requests[0]);
      ServeAddsOnlyResetKeys(next, requests[1..]);
      assert ResetKeys(requests[1..]) <= ResetKeys(requests) by {
        forall k | k in ResetKeys(requests[1..]) ensures k in ResetKeys(requests) {
          var i :| 0 <= i < |requests[1..]| && requests[1..][i].ResetRequest?
                   && k == BalanceKey(Nullish(requests[1..][i].resetBody.account, DefaultAccount));
          assert requests[i + 1] == requests[1..][i];
        }
      }
      if requests[0].ResetRequest? {
        assert BalanceKey(Nullish(requests[0].resetBody.account, DefaultAccount)) in ResetKeys(requests);
        assert next.Keys <= balances.Keys + ResetKeys(requests);
      } else {
        assert next.Keys == balances.Keys;
      }
    }
  }

  /** The handlers' answers to the requests, in order. */
  function Responses(balances: map<string, int>, requests: seq<Request>): (responses: seq<Option<Result<Outcome, ChargeError>>>)
    ensures |responses| == |requests|
    decreases |requests|
  {
    if requests == [] then []
    else [Respond(balances, requests[0])] + Responses(Handle(balances, requests[0]), requests[1..])
  }

  /** How many of the answers report an authorized charge. */
  function AuthorizedResponses(responses: seq<Option<Result<Outcome, ChargeError>>>): (count: nat) {
    if responses == [] then 0
    else (if responses[0].Some? && responses[0].value.Success? && responses[0].value.value.isAuthorized then 1 else 0)
         + AuthorizedResponses(responses[1..])
  }

  /**
   * `n` copies of a `/charge` request that passes validation do to the store,
   * after the defaults of the handler, what `n` runs of the script on the
   * account's key for the requested amount do, and authorize as many charges.
   */
  lemma {:induction false} RepeatedChargesAreReplay(balances: map<string, int>, body: ChargeBody, n: nat)
    requires ValidateCharge(Nullish(body.account, DefaultAccount), Nullish(body.charges, Number(DefaultCharges))).Success?
    ensures var key := BalanceKey(Nullish(body.account, DefaultAccount));
      var a := Nullish(body.charges, Number(DefaultCharges)).cents;
      var requests := Repeat(ChargeRequest(body), n);
      && Serve(balances, requests) == After(balances, key, Repeat(a, n))
      && AuthorizedResponses(Responses(balances, requests)) == AuthorizedCount(Replay(balances, key, Repeat(a, n)))
  {
    if n > 0 {
      var key := BalanceKey(Nullish(body.account, DefaultAccount));
      var a := Nullish(body.charges, Number(DefaultCharges)).cents;
      var requests := Repeat(ChargeRequest(body), n);
      var next := Handle(balances, ChargeRequest(body));
      assert next == Debited(balances, key, a);
      assert requests[0] == ChargeRequest(body) && requests[1..] == Repeat(ChargeRequest(body), n - 1);
      assert Repeat(a, n)[0] == a && Repeat(a, n)[1..] == Repeat(a, n - 1);
      RepeatedChargesAreReplay(next, body, n - 1);
      var responses := Responses(balances, requests);
      var outcomes := Replay(balances, key, Repeat(a, n));
      assert responses[1..] == Responses(next, Repeat(ChargeRequest(body), n - 1));
      assert outcomes[1..] == Replay(next, key, Repeat(a, n - 1));
      assert responses[0] == Some(ChargeResult(balances, Nullish(body.account, DefaultAccount), Number(a)));
      assert outcomes[0] == RunScript(balances, key, a);
    }
  }

  /**
   * The repository's simultaneous-charges test: after `/reset` of "test", ten
   * `/charge` requests for 30 units authorize exactly three and leave 10 units;
   * a further request for 20 units is then refused with (false, 10, 10, 0).
   */
  lemma SimultaneousChargesTest(balances: map<string, int>)
    ensures var start := Handle(balances, ResetRequest(ResetBody(Given("test"))));
      var charges := Repeat(ChargeRequest(ChargeBody(Given("test"), Given(Number(3000)))), 10);
      var final := Serve(start, charges);
      && AuthorizedResponses(Responses(start, charges)) == 3
      && BalanceKey("test") in final && final[BalanceKey("test")] == 1000
      && Respond(final, ChargeRequest(ChargeBody(Given("test"), Given(Number(2000)))))
         == Some(Success(Outcome(false, 1000, 1000, 0)))
  {
    var start := Handle(balances, ResetRequest(ResetBody(Given("test"))));
    var key := BalanceKey("test");
    assert start == ResetBalances(balances, "test");
    RepeatedChargesAreReplay(start, ChargeBody(Given("test"), Given(Number(3000))), 10);
    EqualChargesAuthorized(start, key, 3000, 10);
    assert start[key] / 3000 == 3;
    var final := Serve(start, Repeat(ChargeRequest(ChargeBody(Given("test"), Given(Number(3000)))), 10));
    var r := ChargeResult(final, "test", Number(2000));
    DebitOutcomeIsUnique(r.value, Outcome(false, 1000, 1000, 0), 1000, 2000);
  }

  /**
   * The repository's latency test: after `/reset` with an empty body, five
   * `/charge` requests with empty bodies (10 units to "account" each) are all
   * authorized and leave 50 units.
   */
  lemma BasicLatencyTest(balances: map<string, int>)
    ensures var start := Handle(balances, ResetRequest(ResetBody(Absent)));
      var charges := Repeat(ChargeRequest(ChargeBody(Absent, Absent)), 5);
      var final := Serve(start, charges);
      && AuthorizedResponses(Responses(start, charges)) == 5
      && BalanceKey("account") in final && final[BalanceKey("account")] == 5000
  {
    var start := Handle(balances, ResetRequest(ResetBody(Absent)));
    assert start == ResetBalances(balances, DefaultAccount);
    RepeatedChargesAreReplay(start, ChargeBody(Absent, Absent), 5);
    EqualChargesAuthorized(start, BalanceKey(DefaultAccount), 1000, 5);
  }

  /**
   * Whatever requests arrive, with whatever bodies and in whatever order, no
   * balance in the store ever becomes negative.
   */
  lemma {:induction false} ServeKeepsNonNegative(balances: map<string, int>, requests: seq<Request>)
    requires NonNegative(balances)
    ensures NonNegative(Serve(balances, requests))
    decreases |requests|
  {
    if requests != [] {
      var next := Handle(balances, requests[0]);
      assert NonNegative(next);
      ServeKeepsNonNegative(next, requests[1..]);
    }
  }
}
