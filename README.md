# Cloud charging: a verified model of the balance store and its atomic debit

The service keeps one balance per account in Redis, under the key
`<account>/balance`. `POST /reset` sets that balance to the default of 100
units. `POST /charge` validates its input. It then runs a Lua script that Redis
executes as one indivisible step: the script reads the balance, and if the
balance covers the amount, subtracts the amount. The script always reports four
values: whether the debit was authorized, the initial balance, the remaining
balance and the amount charged. The client parses that reply and hands it back
unchanged.

The model is written in Dafny and follows `backend/app.ts`:

- `wrappers.dfy`: `Option` and `Result`.
- `decimal.dfy` (module `Decimal`): the script's `"%.2f"` formatting and the client's `parseFloat`, on whole cents.
- `charge_script.dfy` (module `ChargeScript`): the script as pure functions, plus the reply encoding (Lua table to Redis reply) and the client's `transformReply`.
  - `RunScript` gives what the script returns.
  - `Debited` gives what the store holds afterwards.
- `store.dfy` (module `Store`): the key derivation and the class `BalanceStore`.
  - The class holds a `map<string, int>` from keys to balances.
  - Its methods `Reset` and `TryDebit` update that map in place.
  - `TryDebit` is the script's body written imperatively.
- `charge_service.dfy` (module `ChargeService`): the validation, `charge` (method `Charge`), and the `/reset` and `/charge` handlers with their `??` defaults.
- `charge_history.dfy` (module `ChargeHistory`): sequences of calls, and the scenarios of `backend/test.ts`.
  - Redis runs each script call as one step, so any interleaving of concurrent requests is some sequence of whole calls.

Money is held as integer cents. `DEFAULT_BALANCE` (100) is `10000`, and the
default charge of 10 is `1000`.

Two points where the code's behaviour is easy to misread:

- An empty account is not defaulted. JavaScript's `??` replaces only `undefined` and `null`. So `{account: ""}` makes `/charge` fail validation, and it makes `/reset` write the key `"/balance"`.
- Debiting a key that was never reset is an error, not a refusal. GET's nil reply reaches Lua as `false`, `tonumber(false)` is nil, comparing that with `>=` raises, and the store is untouched.

The script itself checks neither the key nor the amount. Only `charge` rejects
an empty account or an amount that is not positive.

## Model

| member | source | states |
|---|---|---|
| `Decimal.FormatCents` | backend/app.ts:35-37 | the reply text has exactly two digits after the point, and a leading minus sign exactly for negative amounts |
| `Decimal.ParseCents` | backend/app.ts:48-50 | a parsed text has the two-decimal shape (a point followed by two digits at the end), and a negative value comes only from text that starts with a minus sign |
| `Decimal.ParseCentsOfFormatCents` | backend/app.ts:35-50 | parsing the formatted amount gives back exactly the amount, for every amount of cents including negative ones |
| `ChargeScript.DebitOutcomeIsUnique` | backend/app.ts:24-31 | the debit invariants (authorized iff covered, no partial charge, initial minus remaining equals charges) fix all four reported values |
| `ChargeScript.RunScript` | backend/app.ts:21-38 | the script fails exactly when the key holds nothing; otherwise it reports the stored balance as initial, authorizes exactly when that covers the amount, charges the whole amount or 0, and initial - remaining = charges |
| `ChargeScript.Debited` | backend/app.ts:26-30 | the script changes only the key it is given, leaves the key set alone, stores the remaining balance it reports, and changes nothing on a failed or refused debit |
| `ChargeScript.DebitKeepsNonNegative` | backend/app.ts:26-27 | a positive debit from a non-negative balance leaves both the stored and the reported balance non-negative |
| `ChargeScript.EncodeReply` | backend/app.ts:33-38 | the first reply element is the integer 1 for an authorized debit and a nil reply otherwise, and the three texts parse back to the outcome's initial balance, remaining balance and charges |
| `ChargeScript.EncodeResult` | backend/app.ts:22-38 | a script error reaches the client as that error, and a successful run as the encoded table |
| `ChargeScript.JsBoolean` | backend/app.ts:47 | a nil reply reads as false, and an integer reply reads as true exactly when it is non-zero |
| `ChargeScript.TransformReply` | backend/app.ts:44-51 | the shaped outcome exists exactly when all three amounts parse; its flag is `Boolean` of the first element, and its three amounts are the parsed initial, remaining and charges texts, in that order |
| `ChargeScript.TransformReplyOfEncodeReply` | backend/app.ts:33-51 | shaping the script's reply returns the script's outcome unchanged |
| `Store.BalanceKey` | backend/app.ts:65 | the key is the account followed by the fixed suffix "/balance" |
| `Store.BalanceKeyInjective` | backend/app.ts:79 | two accounts share a key exactly when they are the same account |
| `Store.ResetBalances` | backend/app.ts:62-69 | after a reset the account's key holds 100 units, no other key changes, exactly that key is added, and non-negativity is kept |
| `Store.ResetIdempotent` | backend/app.ts:65 | resetting an account twice gives the same store as resetting it once |
| `Store.BalanceStore.Reset` | backend/app.ts:62-69 | the new map is the reset of the old one, and non-negativity is kept |
| `Store.BalanceStore.TryDebit` | backend/app.ts:21-38 | the map becomes the debited map, the reply is the script's encoded result on the old map, and a positive debit keeps every balance non-negative |
| `ChargeService.Nullish` | backend/app.ts:93 | a given value is kept, even "" or 0; a missing or null value is replaced by the fallback |
| `ChargeService.ValidateCharge` | backend/app.ts:72-74 | validation passes exactly when the account is non-empty and the charges value is a positive number, and it then yields that amount; otherwise the error is invalid parameters |
| `ChargeService.ChargeResult` | backend/app.ts:71-86 | invalid input gives invalid parameters; a valid charge on an account never reset gives the script error; otherwise the result is a correct debit of the requested amount from the account's stored balance |
| `ChargeService.ChargedBalances` | backend/app.ts:71-86 | a failed charge leaves the store unchanged; a successful one changes only the account's key, to the reported remaining balance; non-negativity is kept |
| `ChargeService.Charge` | backend/app.ts:71-86 | the result and the new store are the charge result and the charged balances of the old store, with the reply shaping in between |
| `ChargeService.HandleReset` | backend/app.ts:91-96 | `/reset` resets the body's account, or "account" when it is missing or null; its effect is `Handle` of the reset request |
| `ChargeService.HandleCharge` | backend/app.ts:102-107 | `/charge` charges the body's account and amount, defaulting to "account" and 10 units; its effect and answer are `Handle` and `Respond` of the charge request |
| `ChargeService.Handle` | backend/app.ts:91-107 | handling any request keeps every balance non-negative |
| `ChargeService.Respond` | backend/app.ts:102-107 | `/reset` answers with no result, and `/charge` answers with the charge result for the body's account and amount after the defaults |
| `ChargeService.EmptyBodyUsesDefaults` | backend/app.ts:93-105 | a missing or null account or amount means account "account" and 10 units |
| `ChargeService.EmptyAccountIsNotDefaulted` | backend/app.ts:72-105 | an empty account is kept: `/charge` fails with invalid parameters and leaves the store alone, and `/reset` writes the key "/balance" |
| `ChargeHistory.Replay` | backend/test.ts:26-33 | a sequence of script calls yields one outcome per call |
| `ChargeHistory.After` | backend/app.ts:26-27 | a sequence of script runs neither adds nor removes a key |
| `ChargeHistory.ReplayKeepsNonNegative` | backend/app.ts:26-27 | any sequence of positive debits keeps every balance in the store non-negative, and every reported remaining balance too |
| `ChargeHistory.ReplayIsChain` | backend/app.ts:21-38 | successive debits on a key form one chain: each is a correct debit of its amount, the first starts at the stored balance, each starts where the previous ended, and the last ends at the final stored balance |
| `ChargeHistory.ReplayConserves` | backend/app.ts:31 | over a sequence, the balance falls by exactly the sum of the reported charges |
| `ChargeHistory.ReplayTouchesOnlyKey` | backend/app.ts:22-27 | a sequence of debits on one key leaves every other key, and the key set, unchanged |
| `ChargeHistory.ReplayWithoutBalance` | backend/app.ts:22-26 | on a key that was never reset every call fails with the nil-comparison error, and the store stays unchanged |
| `ChargeHistory.EqualChargesAuthorized` | backend/app.ts:26-30 | n debits of the same amount a from balance b, in any order, authorize exactly min(n, b / a) and take exactly that many times a |
| `ChargeHistory.SimultaneousChargesTest` | backend/test.ts:24-45 | after `/reset` of "test", ten `/charge` requests for 30 authorize exactly 3 and leave 10, and a request for 20 is then answered (false, 10, 10, 0) |
| `ChargeHistory.BasicLatencyTest` | backend/test.ts:12-21 | after `/reset` with an empty body, five `/charge` requests with empty bodies are all authorized and leave 50 on "account" |
| `ChargeHistory.Responses` | backend/test.ts:26-33 | a sequence of requests gets one answer per request |
| `ChargeHistory.Serve` | backend/app.ts:91-107 | handling a sequence of requests never removes a key |
| `ChargeHistory.ServeAddsOnlyResetKeys` | backend/app.ts:62-86 | only `/reset` creates a balance: every key after a sequence of requests was already there or was written by one of its resets |
| `ChargeHistory.RepeatedChargesAreReplay` | backend/app.ts:102-107 | n copies of a `/charge` request that passes validation change the store exactly as n script runs on the account's key for the requested amount do, and authorize as many charges |
| `ChargeHistory.ServeKeepsNonNegative` | backend/app.ts:71-86 | any sequence of `/reset` and `/charge` requests, with any bodies, keeps every balance non-negative |

## Left out

- HTTP: Express routing, JSON body parsing, status codes (204, 200, 500) and the error-to-string responses (`backend/app.ts:88-114`). The handlers are modelled up to the value they pass to the response.
- The Redis client: `connect`, `disconnect`, the URL built from environment variables, and the connection failures they can raise (`backend/app.ts:13-17`, `58-59`, `63-67`, `75-85`). A store that cannot be reached, or a call whose outcome is unknown, is not modelled.
- Concurrency: requests are modelled as a sequence of whole calls. This is exact because Redis runs the script, and the single `SET` of a reset, each as one step. The in-process scheduling of concurrent requests is not modelled.
- Floating point: `INCRBYFLOAT`, `parseFloat` and `"%.2f"` work on doubles in the source. Here amounts are exact integer cents, so formatting never rounds.
- Amounts finer than a cent, and amounts too large for a double to hold exactly, are not modelled.
- `transformArguments` (`backend/app.ts:41-43`) is taken as identity. `toString` followed by `tonumber` returns the same number of cents.
- Decimal.ParseCents: reads only text of the shape `[-]<digits>.<digit><digit>`. Any other text gives None, standing for NaN. The more lenient `parseFloat` behaviour on other text is not modelled.
- Store.BalanceKeyInjective: accounts are sequences of Unicode scalar values. A JSON body may carry an account with an unpaired UTF-16 surrogate; the client's UTF-8 encoding of the key turns it into U+FFFD, so two such accounts can share one Redis key. Such accounts are not modelled.
- ChargeService.Amount: `charges` is a number or "not a number". An account in the body that is not a string (a JSON number, say) is not modelled.
- Store.BalanceStore: keys hold numbers only. A key holding non-numeric text makes the script fail in the source, as a missing key does; that case is not modelled.
- `console.log` output and the latency timing, `sleep` and `Promise.all` scheduling of `backend/test.ts`.
