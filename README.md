# Humanity daily-reward claim scheduler, modelled in Dafny

The program runs one scheduler per account. Each scheduler loops forever:

- It asks the reward API when the next daily award may be claimed and normalises the reply into an epoch-millisecond timestamp.
- When that time lies in the future, it sleeps until then, showing the remaining time.
- It then submits a claim and backs off by a fixed delay that depends on the outcome.

Every account has a small mutable record: name, token, status text, last and next claim time, claim count, balance and latest error. The record lives in a map keyed by the bearer token, and a display reads that map and colours each status by the keywords it contains.

The model consists of these modules:

- `Js` covers the JavaScript values the program meets: decoded JSON properties with their truthiness, numbers that may be NaN, and a response body that may be the JSON literal `null`.
- `Timestamps` is the normalisation of `next_daily_award`.
- `Durations` holds `calculateWaitTime` and `formatDuration`, with a reader of the rendered text that proves the rendering loses nothing beyond sub-second precision.
- `Status` holds the status texts and their classification order.
- `Headers` is `initHeaders`.
- `Accounts` holds the account record. The class `AccountState` has one method per asynchronous operation (`getNextClaimTime`, `claimReward`). Each method is proved against a pure transition function on the `Snapshot` value.
- `Scheduler` holds one iteration of `scheduleAccount`'s loop. An iteration is a pure transition that also yields the observable events: the check and claim requests, and each sleep with its duration and the status shown during it. There is a method per iteration and a method running any finite number of iterations.
- `Store` is the token-keyed map of records: its start-up initialisation, and a per-account step that provably leaves every other account's record alone.

Network responses, clock readings and unexpected errors are inputs. A request outcome is a value of type `Fetched`: the decoded body of a 2xx response, or the message of the error raised while fetching or decoding. The two library parsers applied to a string award, `new Date(s).getTime()` and `parseInt(s)`, are parameters (`Timestamps.Parsers`). Every property holds for all parsers unless it states an assumption about them.

Behaviour of the code that the model keeps as written:

- **Negative timestamps.** The normaliser's guard rejects only a result that is falsy or NaN, so a negative number of seconds is scaled and accepted (`Timestamps.NegativeAwardAccepted`). A reader might expect a negative result to be rejected; the code accepts it, and so does the model.
- **Falsy balances.** The balance update uses `data.balance || account.balance`, so a reported balance of `0` or `""` also keeps the old balance, not only an absent one.
- **A claim reply whose body is `null`.** The count and the last claim time are updated before `data.balance` throws. The claim is then reported as failed, yet it is counted (`Accounts.NullBodyClaimCounted`). A failed claim leaves the count and the last claim time unchanged only when the request failed or its body could not be decoded.
- **String awards are not scaled.** A string award is never scaled, even when it is a seconds count (`Timestamps.DigitTextNotScaled`).

## Model

| member | source | states |
|---|---|---|
| Timestamps.NormalizeAward | main.js:149-171 | an accepted timestamp is never 0 and only comes from a number or a string award |
| Timestamps.Candidate | main.js:149-166 | the value the type branch produces before the guard; its behaviour is stated by `NumericAward`, `TextAward` and `OtherShapesFail` |
| Timestamps.NumericAward | main.js:151-157 | a number below 10,000,000,000 comes back times 1000; one at or above it comes back unchanged; a number fails exactly when it is 0 |
| Timestamps.NegativeAwardAccepted | main.js:153-171 | a negative number is scaled and accepted as a negative timestamp |
| Timestamps.TextAward | main.js:158-166 | a string is its date parse when that is a non-zero number; it fails when the date parse is 0; when the date parse is NaN it is the `parseInt` result if that is a non-zero number and fails otherwise |
| Timestamps.OtherShapesFail | main.js:149-170 | an award that is neither a number nor a string (absent, null, boolean, object) always fails |
| Timestamps.DigitTextNotScaled | main.js:151-165 | for a decimal `parseInt`, the decimal text of a seconds count that is not a date yields the count itself, while the same count sent as a number yields it times 1000 |
| Durations.CalculateWaitTime | main.js:53-61 | the wait is never negative; it is 0 for an absent, NaN or zero time; otherwise `now + wait` is the later of the next claim time and `now` |
| Durations.WaitReachesNext | main.js:53-61 | after waiting, the next claim time has been reached; a positive wait ends exactly at it |
| Durations.Split | main.js:77-80 | `hours*3600 + minutes*60 + seconds` is the total with minutes and seconds below 60 |
| Durations.FormatDuration | main.js:72-89 | formatDuration; its contract is stated by `FormatDurationRoundTrip`, `ZeroDuration`, `FormatDurationShape` and `DurationCharacters` |
| Durations.FormatDurationRoundTrip | main.js:72-89 | reading the rendered text back gives exactly the whole seconds of the duration, and 0 for an absent, NaN, zero or negative duration ("0秒") |
| Durations.ZeroDuration | main.js:73-74 | the text is exactly "0秒" if and only if there is no whole second to show: a missing, NaN, zero or negative duration, or one below a second |
| Durations.FormatDurationShape | main.js:82-88 | hours appear exactly when there is at least one hour, minutes exactly when there are hours or minutes, and the text always ends with the seconds unit |
| Durations.DurationCharacters | main.js:72-89 | a rendered duration consists only of digits and the characters 小, 时, 分, 秒 |
| Durations.RenderHoursRoundTrip | main.js:82-83 | the hours shape reads back as hours*3600 + minutes*60 + seconds |
| Durations.RenderMinutesRoundTrip | main.js:84-85 | the minutes shape reads back as minutes*60 + seconds |
| Durations.RenderSecondsRoundTrip | main.js:86-87 | the seconds-only shape reads back as its seconds |
| Decimal.NoLeadingZero | main.js:83-87 | the text interpolated for 0 is "0", and the one for a positive number has no leading zero (by the contract of `NatToString` each is a non-empty run of digits) |
| Decimal.DigitsValueOfNatToString | main.js:83-87 | the decimal text interpolated into a duration denotes the number it was made from |
| Status.Classify | main.js:270-282 | the colour switch; its contract is stated by `ClassifyPrecedence`, `FixedStatusClasses` and `WaitingStatusClass` |
| Status.ClassifyPrecedence | main.js:270-282 | a status is success-class iff it contains "成功"; failure-class iff it does not but contains "失败"; waiting-class iff it contains neither but contains "等待" |
| Status.FixedStatusClasses | main.js:270-282 | the class of every fixed status the program sets; among them, "领取失败，等待重试" is failure-class, not waiting-class |
| Status.WaitingStatusClass | main.js:210 | the status shown while waiting is waiting-class whatever the remaining time |
| Headers.InitHeaders | main.js:44-50 | the six fixed headers unchanged, plus `token` equal to the account token and a bearer `authorization` carrying that token, and no other header |
| Accounts.Initial | main.js:30-40 | a new record has the account's name and token, status "初始化中" (default class, white), count 0, balance 0, no times and no error |
| Accounts.AccountState.constructor | main.js:30-40 | the new record is the initial record of the credential |
| Accounts.CheckOutcome | main.js:142-171 | a check succeeds exactly on a readable 2xx body whose award normalises, and then yields that normalised, non-zero timestamp; a failed request yields its message, a `null` body the TypeError about `next_daily_award`, and an award that does not normalise "无法解析下次领取时间: " followed by the body's JSON |
| Accounts.AfterCheck | main.js:173-182 | on success the next claim time is set, the error cleared and the status is "获取成功" (success-class); on failure the next claim time is kept, the message recorded and the status is "获取失败" (failure-class); count, balance, last claim time, name and token never change |
| Accounts.AccountState.GetNextClaimTime | main.js:129-186 | the record becomes the check transition of the old one, and the method returns the timestamp exactly when the check succeeded |
| Accounts.AfterClaim | main.js:95-122 | the count grows by one and the last claim time becomes `now` exactly when a 2xx reply with a decodable body (`Received`) arrived; a successful claim clears the error, sets "领取成功" (success-class) and takes the reported balance when it is truthy; a failed one keeps the balance, sets "领取失败" (failure-class) and records the request's error message, or the TypeError about `balance` for a `null` body; the next claim time, name and token never change |
| Accounts.NullBodyClaimCounted | main.js:109-116 | a 2xx reply whose body is `null` is a failed claim that is still counted and dated, with the TypeError's message as the error |
| Accounts.AccountState.ClaimReward | main.js:92-126 | the record becomes the claim transition of the old one, and the result is true exactly for a readable 2xx reply |
| Scheduler.Iteration | main.js:192-236 | one loop iteration as a transition; its contract is stated by `IterationEvents` and `IterationRecord` |
| Scheduler.IterationEvents | main.js:192-236 | the complete event list: an unexpected error is one 60 s sleep showing "调度错误"; otherwise the check comes first; a failed check is followed only by a 60 s sleep showing "等待重试 (1分钟)"; a successful one by a sleep of the computed wait showing "等待领取 (…)" exactly when that wait is positive, then exactly one claim and a 5 s sleep showing "领取成功" or a 10 s sleep showing "领取失败，等待重试"; one check per iteration without an unexpected error, one claim per successful check |
| Scheduler.IterationRecord | main.js:192-236 | over an iteration, name and token stay; the count grows by one only for a claim that got a response; the next claim time changes only by a successful check, to the normalised award; the balance changes only by a successful claim with a truthy balance; the status left is the final sleep's: "调度错误" with the unexpected error's message, "等待重试 (1分钟)" with the check's error, "领取成功" with no error, or "领取失败，等待重试" with the claim's error; an error is carried exactly when that status is not success-class |
| Scheduler.ClaimNotBeforeNextTime | main.js:206-218 | when the clock advanced at least by the wait, a claim is never dated before the next claim time the check reported |
| Scheduler.RunClaimCount | main.js:192-237 | over any number of iterations the count never decreases, grows by at most the number of claim requests, and those are at most one per iteration |
| Scheduler.RunOfFailedChecks | main.js:195-203 | a run in which every check fails is one check and one 60 s sleep per iteration, with count, balance and both claim times unchanged |
| Scheduler.FailedChecksCounts | main.js:195-203 | n failed iterations make n checks and no claim |
| Scheduler.ThreeFailedChecks | main.js:195-203 | three failed checks in a row are three checks, each followed by a 60 s sleep, and no claim |
| Scheduler.ClaimFiveSecondsAhead | main.js:151-227 | an award five seconds ahead, in seconds, gives a check, a 5 s wait, a claim and a 5 s cooldown; a successful claim with a balance counts once and stores that balance and both times |
| Scheduler.FiveSecondWaitStatus | main.js:210 | the status during a five-second wait is "等待领取 (5秒)" |
| Scheduler.NotADateRetries | main.js:158-203 | an award string neither parser reads fails the check, keeps the next claim time, records the response in the error, and retries after 60 s without claiming |
| Scheduler.ScheduleStep | main.js:193-236 | the record and the events of one loop iteration on the shared record are those of the iteration transition |
| Scheduler.WaitAndClaim | main.js:205-228 | the waiting and claiming part on the shared record follows the claim phase of the transition |
| Scheduler.RunScheduler | main.js:192-237 | any number of loop iterations on the shared record follow the run of the transition |
| Store.Registered | main.js:29-41 | the token map the `forEach` builds; its contract is stated by `RegisteredIsLast` |
| Store.RegisteredIsLast | main.js:29-41 | a token is in the map exactly when some account has it, and it holds the last account with that token |
| Store.AccountStore.constructor | main.js:26-41 | one fresh record per registered token, each the initial record of the last account with that token, each stored under its own token |
| Store.AccountStore.StepAccount | main.js:189-237 | one iteration for one account changes that account's record as the transition says and leaves every other account's record as it was |

## Left out

- Network I/O. The requests to `/check` and `/claim`, the status test and `response.json()` are not modelled; their outcomes are inputs of type `Fetched`, and the messages of the errors they raise are not built. The base URL is not modelled.
- The library parsers. `new Date(s).getTime()` and `parseInt(s)` are function parameters, because their behaviour lies in the JavaScript runtime. Only the plain decimal-digit case of `parseInt` is assumed, and only where a lemma says so.
- The wall clock. Each `Date.now()` reading is a parameter: the reading the wait is computed from, and the one that dates a claim. A real clock reaching the next claim time is the assumption `Scheduler.ClockHonoursWait`.
- Timers and concurrency. `sleep` is recorded as an event with its duration. The concurrent start of one scheduler per account and the display refresh every 5 s in `main` are not modelled. `Store.AccountStore.StepAccount` states the consequence that matters: a step of one account touches no other account.
- Intermediate statuses. Several statuses are shown only while a request is in flight: "获取下次领取时间...", "正在领取奖励...", and "领取失败" before it becomes "领取失败，等待重试". The record passes through them inside a method, but the model exposes only the record after the method and the status shown during each sleep.
- Unexpected errors in the loop body. `Scheduler.Iteration` takes such an error (an exception outside the two request functions) as an input raised at the start of the iteration. An error raised later in the iteration is not modelled.
- The display. Terminal control, colours, column padding, `formatTime` and `moment` date formatting, and the error line are not modelled. Neither is the wait column (main.js:284-286), which only re-applies `calculateWaitTime` and `formatDuration`. Only the colour classification of statuses is modelled.
- The account list. Loading `accounts.json` from disk is not modelled, and the account list is a sequence parameter. The `scheduler` field of the record only holds the running loop's promise and is not modelled.
- Map order. The insertion order of the JavaScript `Map`, which fixes the display order, is not modelled; a Dafny `map` has none.
- Number representation. Numbers are unbounded integers. Fractional or huge awards, float rounding and `Infinity` are not modelled, and a malformed value is NaN.
