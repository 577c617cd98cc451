# A verified model of the calculator

The repository is a calculator: a Go service that evaluates one operation per
request, and a browser front end that holds no arithmetic of its own. This
project models the four parts of it in which something has to hold over a whole
run, and proves that it does, or exactly when.

**The rate limiter** (`TokenBucket`, `RateLimitTheorems`). One token bucket per
client in a map that a sweep keeps small. The store is a class with a loop that
deletes while it walks; it is proved against a value model, and the theorems are
about every sequence of requests from any clients with a clock that does not go
backwards. The comment on the sweep says that an evicted client gets the same
answer as from a bucket that kept refilling. That holds if and only if
`rps * (ttl + 1 ns)` fills an empty bucket; for every other configuration there
is a run in which the client gets more than its rate.

**The timeout layer and the recorders** (`ResponseModel`, `ResponseWriters`,
`TimeoutProtocol`, `RequestMetrics`). A handler on its own goroutine writes
through Metrics' recorder and the timeout writer; the watcher races it with an
answer, a deadline, a hang-up or a panic; Recover's and Logger's recorders are
outside. Every locked method is one atomic step, a handler's first write or flush
is two of them with whatever comes between, and a run is any sequence of steps.
What net/http's writer gets is a log of status, body and flush events.
The classes with their fields and their calls into the writer underneath are
proved against the value model the theorems are about.

**The calculator and its store** (`Entry`, `Engine`, `CalculatorStores`,
`StoreTheorems`, `StoreInvariants`, `RetryTheorems`, `ExpressionTheorems`,
`ServedRuns`). The engine is the
pure state machine it is in the source. The store runs it with one request open
at a time but any number of promises in flight, which may settle in any order,
late, or never; its reference is a calculator without tickets and promises in
which every press is answered at once.

**The service** (`Calc`, `CalcTheorems`, `HttpApi`, `HttpTheorems`), from the
decoded body on, and `EndToEnd`, where the calculator's requests meet the
service's validation, with `ExponentEntries` on the one way they can fail it.
`FormatNumber` is how an entry is shown and read back.

## What is assumed

* `golang.org/x/time/rate` by its documented contract, in integers: a bucket
  gains `rps` units per nanosecond up to `burst` seconds' worth, and a
  reservation that is cancelled at once is one atomic step.
* Of binary64 arithmetic (IEEE 754-2019), `Float64.Lawful`: rounding is
  monotone, keeps integers up to 2^53 and whatever it gives, and does not
  overflow below 10^22; the power of finite values is NaN exactly for a negative
  base and a non-integer exponent. Addition, subtraction, multiplication and
  division are defined from rounding, and which of them can give a NaN or an
  infinity is proved.
* Of JavaScript, `StoreInvariants.LawfulJs`: `Number` reads plain decimals by
  rounding them once, `Number(String(x))` is `x`, and `String` writes a plain
  decimal of at most 21 integer digits or an exponent form, which is not a number
  when it is cut off right after its `e`. `FormatNumber.LawfulLocale` says that
  `Intl.NumberFormat("en-US")` writes an integer in full with a comma every three
  digits.

`Assumptions.AssumptionsHoldTogether` shows that these can hold together.

## Where the code and its documentation differ

The model follows the code.

* `backend/internal/middleware/ratelimit.go:181-183` promises that eviction is
  invisible; see `RateLimitTheorems.EvictionInvisibleIff`.
* `frontend/src/stores/useCalculatorStore.ts:34-38` says that `canRetry` and
  `errorRequestId` describe the current error. They describe the last failure for
  as long as only keys that ask for nothing come after it, and the error itself is
  gone with the first of these; see `StoreInvariants.ErrorFieldsMean` and
  `StoreInvariants.ErrorFieldsCanBeStale`.
* `frontend/src/stores/useCalculatorStore.ts:57-61` says that a recalled value is
  an entry exactly as if its digits had been keyed in. It is if and only if
  `String` writes it as a decimal of at most 16 digits, which rules out exponent
  forms but also 0.30000000000000004; see `ExponentEntries.RecallIsTypedIff`. What
  an exponent form leads to is a request without an operand; it also gets into an
  entry as the answer to a key, see `ExponentEntries.EntryIsSafeIff` and
  `ExponentEntries.TypingCanBeUnsafe`.
* When Recover answers a panic it does so underneath Logger's recorder, which
  goes on showing the 200 it started with; see `TimeoutProtocol.RecordersAgree` and
  `TimeoutProtocol.LoggerCanDisagree`.

## Model

| member | source | states |
|---|---|---|
| TokenBucket.NewConfig | backend/internal/middleware/ratelimit.go:135-146 | A store's idle time is the configured one, and ten minutes when that is zero or less |
| TokenBucket.ReserveThenCancel | backend/internal/middleware/ratelimit.go:168-178 | Reserving a token and giving it back when it is not there yet leaves exactly the refilled bucket and reports the time until the token is there |
| TokenBucket.Bucket.Take | backend/internal/middleware/ratelimit.go:164-179 | A request takes one token, or takes none and learns the wait |
| TokenBucket.BucketStore.constructor | backend/internal/middleware/ratelimit.go:135-146 | A new store has no buckets and has seen no insert |
| TokenBucket.BucketStore.SweepLocked | backend/internal/middleware/ratelimit.go:184-190 | The sweep drops exactly the buckets last seen longer ago than the TTL and touches no other |
| TokenBucket.BucketStore.Insert | backend/internal/middleware/ratelimit.go:154-156 | A new client gets a full bucket of its own, and is counted |
| TokenBucket.BucketStore.FindOrInsert | backend/internal/middleware/ratelimit.go:152-160 | The client's bucket afterwards is in the map, even if its own insertion set off a sweep |
| TokenBucket.BucketStore.TryTake | backend/internal/middleware/ratelimit.go:150-179 | The whole request on the shared map: one client's entry changes, the others change only by the sweep, and the answer is that bucket's |
| RateLimitTheorems.EvictionInvisible | backend/internal/middleware/ratelimit.go:150-190 | If the TTL refills a bucket, every request of every run is answered as by a bucket of the client's own that is never evicted |
| RateLimitTheorems.EvictionVisible | backend/internal/middleware/ratelimit.go:181-190 | For every configuration whose TTL does not, a run in which the store admits a request the client's own bucket refuses, and admits more than the rate |
| RateLimitTheorems.EvictionInvisibleIff | backend/internal/middleware/ratelimit.go:181-190 | The promise of the sweep's comment holds for all runs if and only if the TTL refills an empty bucket |
| RateLimitTheorems.DefaultTtlSuffices | backend/internal/middleware/ratelimit.go:20-23 | With the default TTL that is so if and only if the burst is at most ten minutes and a nanosecond's worth of the rate |
| RateLimitTheorems.AdmissionRate | backend/internal/middleware/ratelimit.go:150-190 | Over any window of any run a client is admitted at most burst plus rate times window, evictions included |
| RateLimitTheorems.AdmissionRateIff | backend/internal/middleware/ratelimit.go:150-190 | That bound holds for all runs under exactly the same condition |
| RateLimitTheorems.RefusedForCause | backend/internal/middleware/ratelimit.go:150-190 | In every run, whatever the TTL, a refused request is one whose admission would have put its client above burst plus rate times window over some window ending now |
| RateLimitTheorems.AdmittedIffAffordable | backend/internal/middleware/ratelimit.go:150-190 | If the TTL refills a bucket a request is admitted if and only if admitting it keeps every window of its client within burst plus rate times window |
| RateLimitTheorems.MapSize | backend/internal/middleware/ratelimit.go:25-29 | The map holds what the last sweep kept and the clients inserted since, fewer than 64 |
| RateLimitTheorems.SweepKeepsActive | backend/internal/middleware/ratelimit.go:153-161 | After a sweep the map holds exactly the clients seen within the TTL, the one that set it off among them |
| TokenBucket.RetryAfter | backend/internal/middleware/ratelimit.go:88-90 | Retry-After is the fewest whole seconds that cover the wait, and at least one |
| RateLimitTheorems.RetryAfterIsHonest | backend/internal/middleware/ratelimit.go:82-91 | A refused client is told one second, and if it makes no request meanwhile is admitted exactly from the end of the wait on, whatever the others do, or as soon as its bucket is evicted |
| ResponseModel.WriteHeaderIsTransparent | backend/internal/middleware/responsewriter.go:26-35 | Through any stack of recorders the first status reaches the connection once, and each recorder shows it |
| ResponseModel.WriteIsTransparent | backend/internal/middleware/responsewriter.go:37-44 | Through any stack of recorders a body reaches the connection after exactly one status line, and each recorder counts its bytes |
| ResponseModel.FlushIsTransparent | backend/internal/middleware/responsewriter.go:46-55 | A flush commits the status line, through any stack of recorders |
| ResponseModel.WritesAccepted | backend/internal/middleware/timeout.go:123-142 | A closed timeout writer accepts no byte, also through a recorder, and changes nothing; an open one accepts every byte |
| ResponseWriters.Recorder.constructor | backend/internal/middleware/responsewriter.go:20-24 | A new recorder shows the implicit 200 |
| ResponseWriters.Recorder.WriteHeader | backend/internal/middleware/responsewriter.go:26-35 | The first status is remembered and passed on, later ones are swallowed |
| ResponseWriters.Recorder.Write | backend/internal/middleware/responsewriter.go:37-44 | The body goes on after an implicit status, and the bytes accepted below are counted |
| ResponseWriters.Recorder.Flush | backend/internal/middleware/responsewriter.go:48-55 | A flush counts as having written the header |
| ResponseWriters.TimeoutWriter.constructor | backend/internal/middleware/timeout.go:43 | The handler's header map starts empty and apart from the response's |
| ResponseWriters.TimeoutWriter.CommitHeaderLocked | backend/internal/middleware/timeout.go:159-164 | The loop over the staged map overrides exactly the staged names on the response underneath, whatever layers are there |
| ResponseWriters.TimeoutWriter.WriteHeaderLocked | backend/internal/middleware/timeout.go:147-154 | The status and the staged headers go out once, and never after the writer was closed |
| ResponseWriters.TimeoutWriter.Write | backend/internal/middleware/timeout.go:123-131 | A write on a closed writer accepts nothing, any other commits first |
| ResponseWriters.TimeoutWriter.Flush | backend/internal/middleware/timeout.go:134-142 | A flush on a closed writer does nothing, any other commits first |
| ResponseWriters.TimeoutWriter.Finish | backend/internal/middleware/timeout.go:169-176 | Headers staged by a handler that wrote nothing still reach the response, and the writer is closed |
| ResponseWriters.TimeoutWriter.Stop | backend/internal/middleware/timeout.go:182-187 | Closes the writer, leaves everything below alone and tells whether the response had started |
| ResponseWriters.WriteProblem | backend/internal/httpapi/problem.go:116-138 | A problem is its headers, its status and its body, through any writer |
| ResponseWriters.AfterPanic | backend/internal/middleware/recover.go:34-58 | Recover re-panics http.ErrAbortHandler, leaves a started response alone, and answers INTERNAL otherwise |
| TimeoutProtocol.CallIsItsSections | backend/internal/middleware/responsewriter.go:37-55 | Undisturbed, a handler's first write or flush is the implied status followed by the call itself, each under the mutex once |
| TimeoutProtocol.NeverMixed | backend/internal/middleware/timeout.go:38-187 | In every interleaving, between the two halves of a first write included, the client has the handler's output, a prefix of it, the TIMEOUT problem alone, the INTERNAL problem alone or nothing, by what the watcher decided; nothing done late gets out |
| TimeoutProtocol.TimeoutIsAnswered | backend/internal/middleware/timeout.go:72-85 | From every reachable state with the watcher waiting, the deadline passed and nothing started, taking the context and the three calls of the answer, with any steps of the handler in between, leave exactly a 503 with the problem's headers and then its body |
| TimeoutProtocol.ReturnIsAnswered | backend/internal/middleware/timeout.go:64-70 | Taking the return of a handler leaves its complete output, its headers if that is nothing, a closed writer and the final verdict |
| TimeoutProtocol.PanicIsAnswered | backend/internal/middleware/recover.go:34-58 | A panic that is taken ends with the handler's output so far or, if there is none, with exactly a 500 and the INTERNAL problem; http.ErrAbortHandler goes on to net/http with the output so far |
| TimeoutProtocol.PanicIsHeard | backend/internal/middleware/timeout.go:47-62 | Whatever a handler did before, if it is left alone and panics its panic is there for the watcher to take |
| TimeoutProtocol.LeavingIsNoticed | backend/internal/middleware/timeout.go:72-79 | A client that leaves is not answered: the watcher leaves too, with nothing more on the wire |
| TimeoutProtocol.EveryRunEnds | backend/internal/middleware/timeout.go:57-87 | Every run can be brought to a final verdict without the handler: the deadline and at most five steps of the goroutines outside are enough |
| TimeoutProtocol.InTimeGetsEverything | backend/internal/middleware/timeout.go:64-70 | A handler nobody disturbs gets its whole output to the client: its status, its headers and every body in order |
| TimeoutProtocol.WriteCanBeCut | backend/internal/middleware/timeout.go:72-84 | A run in which the prefix is proper: the deadline leaves a write's status line without its body |
| TimeoutProtocol.OneStatusLine | backend/internal/middleware/responsewriter.go:26-35 | At most one status line reaches the wire in any run, it comes first, and no layer asks for a second one |
| TimeoutProtocol.RecordersAgree | backend/internal/middleware/recover.go:33-60 | Recover's recorder always shows what the client got; Logger's does exactly if Recover did not answer |
| TimeoutProtocol.LoggerCanDisagree | backend/internal/middleware/recover.go:49-57 | A run in which Recover answers: the client gets a 500 and Logger's recorder shows a 200 |
| TimeoutProtocol.ObservedStatus | backend/internal/middleware/metrics.go:60-63 | The status Metrics sees is the client's unless the watcher closed the writer before the handler committed one |
| RequestMetrics.MetricsRegistry.Enter | backend/internal/middleware/metrics.go:54 | Entering raises the gauge by one |
| RequestMetrics.MetricsRegistry.Leave | backend/internal/middleware/metrics.go:58-63 | Leaving lowers it by one on every path, and a handler that returned is observed with its recorder's status |
| RequestMetrics.ArrivalIsEntered | backend/internal/middleware/metrics.go:52-61 | A request that arrives is entered with its handler running, raises the gauge by one and touches no other |
| RequestMetrics.EachRunsAlone | backend/internal/middleware/metrics.go:52-64 | Concurrent requests do not interfere: each is a run of its own steps |
| RequestMetrics.GaugeCountsRunning | backend/internal/middleware/metrics.go:54-58 | In every run, panics and timeouts included, the gauge is the number of handlers entered and not yet left |
| RequestMetrics.ObservedOnce | backend/internal/middleware/metrics.go:60-63 | A handler that returned is observed exactly once; one that panicked or is still running is not |
| RequestMetrics.ObservationIsTrue | backend/internal/middleware/metrics.go:31-39 | The observed status is what the client got, unless the watcher closed the writer first |
| RequestMetrics.RouteIsPath | backend/internal/middleware/metrics.go:77-90 | A registered pattern is labelled by its path, with or without a method and a host, and no pattern as "unmatched" |
| Entry.KeysCloseGrammar | frontend/src/lib/calculator-engine.ts:411-445 | Every editing key takes an entry to an entry, none lets it grow past 16 digits, and with 16 there the digit keys do nothing |
| Entry.ToggleSignInvolution | frontend/src/lib/calculator-engine.ts:432-439 | Two sign keys undo each other on every entry |
| Entry.ToggleSignNegates | frontend/src/lib/calculator-engine.ts:432-439 | The sign key negates the number the entry stands for |
| Entry.DigitExtendsValue | frontend/src/lib/calculator-engine.ts:416-422 | A digit key appends one decimal place to the number the entry stands for, before or behind the point |
| Entry.PointKeepsValue | frontend/src/lib/calculator-engine.ts:424-426 | The point key puts one point there and keeps the number the entry stands for |
| Entry.BackspaceUndoesDigit | frontend/src/lib/calculator-engine.ts:416-430 | Backspace takes back every digit that changed the entry |
| Entry.BackspaceDropsOne | frontend/src/lib/calculator-engine.ts:428-440 | Backspace takes off the last character, or leaves a bare zero if what is left is not an entry |
| Entry.ParseIsTotal | frontend/src/lib/calculator-engine.ts:441-445 | Every entry parses to a finite number that is not a negative zero |
| Entry.ParseRounds | frontend/src/lib/calculator-engine.ts:441-445 | An entry is read as what it stands for, rounded once, and never as a negative zero |
| CalculatorStores.CalculatorStore.SettleResult | frontend/src/stores/useCalculatorStore.ts:76-81 | An answer is applied if and only if its ticket is current |
| CalculatorStores.CalculatorStore.SettleFailure | frontend/src/stores/useCalculatorStore.ts:83-95 | So is a failure, with its request id and whether it can be retried |
| CalculatorStores.CalculatorStore.SendRequest | frontend/src/stores/useCalculatorStore.ts:97-117 | A request takes a new ticket and opens one promise, or fails at once with nobody to ask |
| CalculatorStores.CalculatorStore.PressKey | frontend/src/stores/useCalculatorStore.ts:119-133 | A key does nothing while a request is open, and otherwise what the engine says |
| CalculatorStores.CalculatorStore.PressAC | frontend/src/stores/useCalculatorStore.ts:160-170 | AC always resets, and takes a new ticket |
| CalculatorStores.CalculatorStore.PressRetry | frontend/src/stores/useCalculatorStore.ts:180-185 | Retry sends the last request again if it may |
| CalculatorStores.CalculatorStore.RecallValue | frontend/src/stores/useCalculatorStore.ts:186-196 | A recalled value starts a fresh entry |
| CalculatorStores.CalculatorStore.PromiseSettles | frontend/src/stores/useCalculatorStore.ts:109-116 | Any promise in flight may settle, under the ticket it was sent with |
| StoreTheorems.PendingIsOnePromise | frontend/src/stores/useCalculatorStore.ts:67-117 | In every reachable state the store waits exactly if one promise carries the current ticket; only one does, and all others are older |
| StoreTheorems.StaleAnswersAreDropped | frontend/src/stores/useCalculatorStore.ts:76-86 | Stale answers, in any order and number, change nothing the user or a later key can see |
| StoreTheorems.AsyncIsSync | frontend/src/stores/useCalculatorStore.ts:76-196 | In every run the store is the reference that answers every accepted action on the spot, run on the actions since the last AC; once nothing is pending none of them lacks its answer |
| StoreInvariants.AlwaysConsistent | frontend/src/lib/calculator-engine.ts:40-81 | In every reachable state an error is shown exactly in the error phase, idle is the initial state, and when nothing is pending the operands a request is built from are there and on the display |
| StoreInvariants.FallbacksUnused | frontend/src/lib/calculator-engine.ts:460-471 | The stand-ins for a missing operator or operand are never used: any others give the same presses |
| StoreInvariants.ErrorFieldsMean | frontend/src/stores/useCalculatorStore.ts:34-38 | In every run `errorRequestId` and `canRetry` are those of the failure of the last request since AC if only quiet keys followed it, and unset otherwise; that failure's error is on show exactly if no key followed, and with nothing pending no other is |
| StoreInvariants.CanRetryMeans | frontend/src/stores/useCalculatorStore.ts:36-56 | A retry is offered exactly if the last request since AC failed for a transport reason and only quiet keys followed; it sends that request; the error is still on show exactly if there was no such key |
| StoreInvariants.ErrorFieldsCanBeStale | frontend/src/stores/useCalculatorStore.ts:119-123 | For every failure a run after which both fields are as it set them and no error is on show |
| StoreInvariants.RetryCanBeStale | frontend/src/stores/useCalculatorStore.ts:180-185 | Retrying then puts the answer in place of the number being typed |
| RetryTheorems.WaitingIsUndisturbed | frontend/src/stores/useCalculatorStore.ts:76-133 | While an answer is awaited, keys, retries, recalls, a change of evaluator and the answers to anything else, in any order and number, change nothing the user or a later key can see |
| RetryTheorems.RetryShowsAnswer | frontend/src/stores/useCalculatorStore.ts:180-185 | After every run whose last request was refused for a transport reason, Retry opens a promise with that request, the store waits for it undisturbed, and its outcome takes the place of what is on show: if that is still the error, the value or the new error is shown and nothing is pending |
| RetryTheorems.NobodyAnswers | frontend/src/stores/useCalculatorStore.ts:103-108 | With nobody wired up, every key or retry that asks fails at once: error on show, nothing pending, no promise and no retry |
| ExpressionTheorems.EntryCanBeTyped | frontend/src/lib/calculator-engine.ts:411-445 | Every entry of at most 16 digits can be typed |
| ExpressionTheorems.ExpressionIsLeftFold | frontend/src/lib/calculator-engine.ts:225-342 | Typing n1 op1 n2 ... nk = shows the left fold of the server over the typed values, or the first failure if the typing stops there |
| ExpressionTheorems.ExpressionResumes | frontend/src/lib/calculator-engine.ts:225-356 | Typed right through, it shows the fold that starts afresh with the operand behind every failure |
| ExpressionTheorems.ResumedIsFold | frontend/src/lib/calculator-engine.ts:225-342 | If no operation but the last one fails that is the left fold |
| ExpressionTheorems.RepeatedEquals | frontend/src/lib/calculator-engine.ts:281-288 | Each further = applies the last operation and second operand to the running result, and keeps both |
| ExpressionTheorems.ExpressionRepeats | frontend/src/lib/calculator-engine.ts:257-292 | After an expression, k more = are k iterations of its last operation |
| ExpressionTheorems.UnaryReplacesEntry | frontend/src/lib/calculator-engine.ts:294-342 | n1 op n2 % works out n2 per cent of n1, n1 op n2 sqrt the root of n2, and = finishes the operation with it |
| ExpressionTheorems.UnaryAlone | frontend/src/lib/calculator-engine.ts:303-309 | n1 % asks the server for n1 hundredths of one and shows the outcome, n1 sqrt for its root |
| ExpressionTheorems.EqualsReusesFirst | frontend/src/lib/calculator-engine.ts:271-275 | n1 op = takes n1 for both operands, and further = keys repeat op n1 |
| ExpressionTheorems.ResultGoesOn | frontend/src/lib/calculator-engine.ts:241-242 | An operator on a result goes on calculating with it |
| ExpressionTheorems.NothingIsCarriedOver | frontend/src/lib/calculator-engine.ts:116-139 | After an error with any key, and after a result with a digit or a point, the rest of the keys does what it would from the start |
| ExpressionTheorems.ClearEntryUndoesOperand | frontend/src/lib/calculator-engine.ts:188-208 | CE after any second operand brings back the state before it |
| ExpressionTheorems.ClearsLikeAC | frontend/src/lib/calculator-engine.ts:150-208 | CE anywhere but behind an operator, and the sign, backspace and = keys with no number there, do what AC does: all later keys run as from the start |
| ExpressionTheorems.IdleKeyIsIgnored | frontend/src/lib/calculator-engine.ts:170-292 | CE behind an operator, backspace on a value that was not typed, and = with nothing to repeat do nothing: all later keys run as if they had not been pressed |
| ExpressionTheorems.OperatorTakesZero | frontend/src/lib/calculator-engine.ts:225-230 | An operator with nothing before it, or behind an error, works on zero: op n2 = asks for 0 op n2 |
| ExpressionTheorems.UnaryTakesZero | frontend/src/lib/calculator-engine.ts:303-307 | So do sqrt and % |
| ExpressionTheorems.OperatorsCollapse | frontend/src/lib/calculator-engine.ts:225-242 | Of any number of operators in a row, in any state in which the first is taken, only the last one counts |
| ExpressionTheorems.SignParity | frontend/src/lib/calculator-engine.ts:150-168 | An even number of sign keys on a value on show restores the whole state, an odd one negates that value and nothing else |
| ExpressionTheorems.UnaryIterates | frontend/src/lib/calculator-engine.ts:303-342 | sqrt and % on a value on show, any number of times, apply the operation as often and keep the pending one |
| ServedRuns.StoreComputesActions | frontend/src/stores/useCalculatorStore.ts:97-196 | With a server behind it the store is what taking the accepted keys, retries and recalls one by one and waiting for each answer would make it, in whatever order promises settle |
| ServedRuns.StoreShowsExpression | frontend/src/stores/useCalculatorStore.ts:97-133 | In every such run whose accepted actions are the keys of an expression the store shows its fold, with a fresh start behind every failure |
| ServedRuns.PlayIsARun | frontend/src/stores/useCalculatorStore.ts:97-133 | Every sequence of keys is played by such a run |
| Calc.BuildIndex | backend/internal/calc/calc.go:48-51 | The loop's index says where each operation is, and of no other name |
| Calc.NewRegistry | backend/internal/calc/calc.go:38-53 | The registry holds the seven operations in order, fully indexed |
| Calc.Lookup | backend/internal/calc/calc.go:56-62 | A name is found exactly if an operation has it, and then that operation |
| CalcTheorems.EvaluateMeans | backend/internal/calc/calc.go:69-153 | Evaluation is never -0 and the one error that says why there is no answer, or an answer: of + - x / the exact result rounded once, of percent the rounded product and its rounded hundredth or, if the product is out of range, its fallback, of power and sqrt what binary64 gives |
| CalcTheorems.PercentOverflows | backend/internal/calc/calc.go:144-153 | The fallback of percent overflows only if the plain product does, so taking it never loses an answer |
| CalcTheorems.EveryAnswer | backend/internal/calc/calc.go:69-106 | For every name and operands, each error exactly when it applies, and any answer is finite, not -0 and a binary64 value |
| CalcTheorems.PercentIsExact | backend/internal/calc/calc.go:144-153 | b per cent of a is exact for whole numbers whose product is at most 2^53 and a multiple of 100 |
| HttpApi.ReportUnsupported | backend/internal/httpapi/validate.go:55-64 | The problem for an unknown operation lists the names of all known ones, in order |
| HttpApi.ReportFields | backend/internal/httpapi/validate.go:35-42 | The validation problem names the field of every error, in order |
| HttpApi.Validate | backend/internal/httpapi/validate.go:14-53 | Collects every bad field before it looks at the operation, as its specification does |
| HttpApi.Handler.Evaluate | backend/internal/httpapi/handler.go:118-137 | Decoded body, validation, evaluation and error mapping in this order, with the operation only once it is confirmed |
| HttpApi.Handler.Record | backend/internal/httpapi/handler.go:146-158 | One series of the counter goes up by one, or none without metrics |
| HttpApi.Handler.Calculate | backend/internal/httpapi/handler.go:104-112 | Every attempt is answered and counted once |
| HttpTheorems.BadFieldsListed | backend/internal/httpapi/validate.go:11-42 | A validation problem lists each bad field once, in the order operation, a, b |
| HttpTheorems.RefusalsExplain | backend/internal/httpapi/validate.go:14-64 | The answer to every request that is not acceptable is the problem that says why: each bad field once, in order and with what is wrong with it, or the seven operations there are, or the operand that is too much |
| HttpTheorems.UndecodableIsReported | backend/internal/httpapi/handler.go:118-122 | A body that could not be decoded is answered with the problem decoding gave and counted under "unknown" and its code |
| HttpTheorems.ValidatesExactly | backend/internal/httpapi/validate.go:11-53 | Validation accepts exactly the requests whose operation is known and whose operands are finite and as many as it takes, and gives each other one its code and status |
| HttpTheorems.ClassifiesEveryRequest | backend/internal/httpapi/errors.go:21-54 | Every decoded request gets the one code that describes it, with status 400 or 422 and never INTERNAL, or its correctly rounded result |
| HttpTheorems.DivisorIsNamed | backend/internal/httpapi/errors.go:33-47 | Of the calculation errors only a zero divisor names a field; detail and errors of each are spelt out |
| HttpTheorems.CountsEveryAttempt | backend/internal/httpapi/handler.go:139-158 | Whatever clients send, each series counts exactly its attempts, and the series come from a fixed set |
| HttpTheorems.SeriesMeans | backend/internal/httpapi/handler.go:139-158 | The series of every decoded request: its operation if it is acceptable and "unknown" otherwise, with "ok" or the code it is refused with |
| EndToEnd.ListsAgree | frontend/src/lib/calculator-engine.ts:102-111 | The service registers the seven operations of the calculator and no other, under the same symbols and with the number of operands the calculator sends |
| EndToEnd.EveryRequestIsAccepted | frontend/src/lib/calculator-engine.ts:230-320 | In every run with sound answers that edits no exponent form, retries and repeats included, every request passes the service's validation |
| ExponentEntries.EntryIsSafeIff | frontend/src/lib/calculator-engine.ts:329-331 | In any healthy state whose entry can be edited, all keys, answers, retries and recalls that put no exponent form in an entry send acceptable requests if and only if the entry is not one itself |
| ExponentEntries.RecallIsSafeIff | frontend/src/stores/useCalculatorStore.ts:186-196 | In every orderly run, recalling a value leads to such a safe entry if and only if String writes it without an exponent |
| ExponentEntries.TypingCanBeUnsafe | frontend/src/lib/calculator-engine.ts:326-331 | Typing alone leads to an unsafe one: an honest run of n1 op n2 and sqrt or % whose answer is written with an exponent |
| ExponentEntries.RecallIsTypedIff | frontend/src/stores/useCalculatorStore.ts:57-61 | A recalled value is an entry as if keyed in if and only if String writes it as a decimal of at most 16 digits |
| ExponentEntries.RecallCanBeUntypable | frontend/src/stores/useCalculatorStore.ts:57-61 | 0.30000000000000004 needs no exponent and cannot be keyed in |
| EndToEnd.ServiceMeans | backend/internal/httpapi/handler.go:114-137 | To every request the calculator can send the service answers with what its operation computes, said operation by operation on the real numbers it stands for (rounded sum, difference, product and quotient, hundredths, power, root), or with one of three failures, none retryable |
| EndToEnd.CalculatorAndService | frontend/src/stores/useCalculatorStore.ts:65-198 | With the service behind it, in every run of keys, AC, retries, recalls and promises that settle in any order with its answer or fail in transit, its own 429 and 503 included, that edits no exponent form: all requests are accepted, all numbers held are sound, the errors are those of a calculation or of transit, and a retry is offered for the latter only |
| EndToEnd.ExpressionMeans | frontend/src/stores/useCalculatorStore.ts:65-198 | In every asynchronous run whose accepted actions are n1 op1 n2 ... nk = the store with the service behind it shows the left fold of what the operations compute, with a fresh start behind each without an answer |
| EndToEnd.WholeNumbersCompute | frontend/src/stores/useCalculatorStore.ts:65-198 | Typing m op n = in any such run, for whole numbers up to 2^53, shows m + n, m - n or m * n exactly as long as that is at most 2^53 |
| EndToEnd.UnaryMeans | frontend/src/lib/calculator-engine.ts:303-309 | In any such run of n1 sqrt or n1 % the store shows the root of n1 or n1 / 100, rounded once |
| EndToEnd.UnaryInExpressionMeans | frontend/src/lib/calculator-engine.ts:294-342 | In any such run of n1 op n2 sqrt = or n1 op n2 % = it shows n1 op the root of n2, or n1 op n2 per cent of n1 |
| FormatNumber.FormatRoundTripsIff | frontend/src/lib/format-number.ts:82-113 | Removing the commas of a formatted entry gives the entry back if and only if its integer part survives Number, and then it reads back as the same number |
| FormatNumber.SafeIntegersSurvive | frontend/src/lib/format-number.ts:88-103 | Every integer part up to 2^53 survives |
| FormatNumber.FormatIsGrouped | frontend/src/lib/format-number.ts:88-103 | The commas are three digits apart from the right, with none in front; sign, point and fraction are as typed |
| FormatNumber.TrimKeepsValue | frontend/src/lib/format-number.ts:75-80 | Trimming a mantissa of either sign keeps sign and value, leaves no trailing zero behind a point and no trailing point, and trimming again changes nothing |

## Left out

- The internals of `golang.org/x/time/rate`: its float rounding, and reservations of two goroutines interleaved between reserve and cancel.
- A clock that goes backwards between goroutines, and integer overflow of nanosecond counts.
- `clientKey`, `operationalPaths`, CORS, security headers, request ids, probes and configuration loading: branches without an invariant across calls.
- Responses with 1xx statuses, handlers that reach the connection through `Unwrap` (deadlines, hijacking), and writes net/http rejects: the connection accepts all bytes.
- A middleware that is disabled (`Timeout` of zero, no metrics for the recorder chain) and the latency histogram.
- ResponseWriters.TimeoutWriter.WriteHeader: the mutex is modelled by every locked method being one step, so its memory-model effects are not.
- TimeoutProtocol.NeverMixed: who reads `r.Pattern` after the handler returned is not modelled; nothing but the route label depends on it.
- Decoding the JSON body: `HttpApi.Handler.Evaluate` takes the decoded request or the problem decoding gave.
- Texts of details and field messages are values that say what they are about; wording and quoting are not modelled, nor are `type`, `title`, `instance` and `requestId`.
- CalcTheorems.EvaluateMeans: which value `math.Pow` and `math.Sqrt` give is not modelled beyond when it is NaN, finite and representable.
- HttpTheorems.ClassifiesEveryRequest: for `power`, overflow is "the power is infinite", for want of an exact power.
- `formatResult`, its significant digits and exponent notation: they rest on `toPrecision` and `toExponential`, which are not modelled.
- `expressionOf` and the selectors: they only read the state.
- `messageForError` is any function from failures to sentences.
- An evaluator that throws instead of returning a promise.
- EndToEnd.CalculatorAndService: a store nobody is wired up to is left to `RetryTheorems.NobodyAnswers` and the theorems about all runs.
- React components, the keyboard listener, history, storage, the HTTP client, nginx, Docker and process lifecycle.
