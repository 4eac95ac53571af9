# Resilient scatter-gather: the ChatSummary decision core

This project models the `ChatSummary` HTTP handler of the Resilient-Scatter-Gather
gateway. For each request it:
- checks that `user_id` and `chat_id` are present;
- makes per-request copies of the three dependency configurations, with query-string
  overrides applied;
- calls the user service, the permissions service (both critical) and vector memory
  (best-effort) concurrently under a 200ms SLA;
- answers with 400, 500, or 200 with a `Degraded` flag.

The concurrency is replaced by an event trace. Each event is one of `UserDone`,
`PermsDone`, `VmDone` or `Deadline`, listed in the order the handler's `select` takes
them. A `VmDone` event is the vector-memory goroutine filling its one-slot channel at
that point. When the trace runs out, that counts as the deadline firing.

The fan-in loop is a pure function `Loop` over the trace. `Verdict` turns where the
loop ended into the reply. The handler itself is imperative:
- a class `Handlers` whose shared fields its methods never modify (they have no
  `modifies` clause);
- a method `Collect` whose `while` loop over the trace updates `gotUser`/`userRes`,
  `gotPerms`/`permsRes` and the vector-memory slot, and is proved equal to
  `Verdict(Loop(trace, Start))`.

`Exit` is an independent reference description of the loop's end, stated through the
positions of the first user, permissions, vector-memory and deadline events. `LoopIsExit`
proves the two agree on every trace in which each dependency reports at most once. That
is guaranteed by the source, because each channel has exactly one send.

Files:
- `wrappers.dfy`: `Option`.
- `models.dfy`: the records of `internal/models/models.go`, plus Go's int64 and
  `time.Duration`.
- `mocks.dfy`: what each mock of `internal/mocks/mocks.go` reports.
- `query_params.dfy`: `Values.Get`, `parseBool`, `parseDuration`.
- `fan_in.dfy`: the trace, `Loop`, `Exit`, `Verdict` and the lemmas about them.
- `handlers.dfy`: the override step, the handler class and the end-to-end lemmas.

What the code does and what its first test expects differ:
- The handler tests configure user 10ms, permissions 50ms and vector memory 100ms
  (`internal/handlers/chat_summary_test.go:14-20`). The first test
  (`internal/handlers/chat_summary_test.go:50-56`) expects a context and
  `degraded == false`.
- The code reads the vector-memory slot once, without waiting
  (`internal/handlers/chat_summary.go:151-163`). The loop ends when permissions answers at
  about 50ms, so with vector memory answering at 100ms that read finds the slot empty.
- The model follows the code. `TestDelaysDegrade` shows that this order of arrivals gives a
  degraded reply without a context, the same reply the slow-vector-memory test at lines
  59-84 expects.

## Model

| member | source | states |
|---|---|---|
| `QueryParams.QueryGet` | internal/handlers/chat_summary.go:35-36 | a missing key, or a key with no values, reads as `""`; otherwise the first value of the key |
| `QueryParams.ParseBool` | internal/handlers/chat_summary.go:192-204 | `ok` exactly for the fourteen listed spellings (case-sensitive); the value is true exactly for `1,true,TRUE,yes,YES,y,Y`; `""` gives `(false,false)` |
| `QueryParams.ParseDuration` | internal/handlers/chat_summary.go:181-190 | `ok` iff the string is non-empty and the library parser accepts it; then the value is the parser's, otherwise 0 |
| `Mocks.SleepCtx` | internal/mocks/mocks.go:86-99 | a non-positive delay never waits; otherwise the error of the context (deadline exceeded or canceled) is returned exactly when it fired first |
| `Mocks.GetUser` | internal/mocks/mocks.go:22-37 | succeeds iff not configured to fail and not cancelled; success is the user with the requested id and the fixed name; a failing config always gives an error |
| `Mocks.CheckAccess` | internal/mocks/mocks.go:45-59 | succeeds iff not failing and not cancelled; success carries the chat id, user id and configured `Allowed` |
| `Mocks.GetContext` | internal/mocks/mocks.go:66-82 | succeeds iff not failing and not cancelled; success is the record with the chat id, the fixed snippet and source, and the measured latency |
| `Handlers.OrKeep` | internal/handlers/chat_summary.go:55-60 | a field takes the parsed value when parsing succeeded and keeps its configured value otherwise |
| `Handlers.OverrideUsers` | internal/handlers/chat_summary.go:53-62 | `user_delay` replaces the delay only when it parses; any true/false spelling of `user_fail` sets `Fail`; anything else leaves it as configured |
| `Handlers.OverridePerms` | internal/handlers/chat_summary.go:64-76 | the same for `perms_delay`, `perms_fail` and `perms_allowed` |
| `Handlers.OverrideVm` | internal/handlers/chat_summary.go:78-87 | the same for `vm_delay` and `vm_fail` |
| `Handlers.PerRequestClients` | internal/handlers/chat_summary.go:45-87 | a request with none of the override parameters runs with the handler's configuration unchanged |
| `Handlers.Handlers.New` | internal/handlers/handlers.go:11-17 | the handler holds the three configurations it was built with |
| `Handlers.Handlers.ChatSummary` | internal/handlers/chat_summary.go:28-173 | no dependency is dispatched iff `user_id` or `chat_id` is empty, and then the reply is 400; otherwise the dispatched configuration is the overridden copy and the reply is `Verdict(Loop(trace, Start))`; the shared fields are never written |
| `Handlers.Handlers.PerRequestCopy` | internal/handlers/chat_summary.go:45-87 | the field-by-field updates of the local copies give exactly `PerRequestClients` of the handler's configuration |
| `Handlers.Collect` | internal/handlers/chat_summary.go:109-172 | the select loop, the critical-error check and the non-blocking read give exactly `Verdict(Loop(trace, Start))` |
| `FanIn.Loop` | internal/handlers/chat_summary.go:117-134 | the loop ends within the trace and sees no deadline before its end; a timeout ends at a deadline (or at the end of the trace) with a critical result outstanding; when both critical results are collected, the event that ended the loop was a user or permissions answer, never a vector-memory one |
| `FanIn.ReplayRecords` | internal/handlers/chat_summary.go:126-132 | after any prefix of the trace, the recorded user, permissions and slot values are those of the first such event in the prefix, or absent |
| `FanIn.LoopFrom` | internal/handlers/chat_summary.go:117-134 | from any point before the reference exit, running the loop on the rest of the trace reaches the reference end |
| `FanIn.LoopIsExit` | internal/handlers/chat_summary.go:117-134 | the loop collects both critical results iff both arrive before the first deadline, and then it holds exactly those two values; otherwise it times out at the first deadline; the slot is filled iff vector memory answered before the later critical result |
| `FanIn.VmArrivalIrrelevant` | internal/handlers/chat_summary.go:117-134 | inserting a vector-memory completion anywhere in the trace changes neither whether the loop times out nor the critical results it collects |
| `FanIn.ArrivalOrderIrrelevant` | internal/handlers/chat_summary.go:117-142 | exchanging the positions of the user and permissions answers leaves the loop's end, and therefore the reply, unchanged |
| `FanIn.Verdict` | internal/handlers/chat_summary.go:136-172 | 500 iff the loop timed out or a critical result is an error, with the SLA or critical-error message and no payload; otherwise 200 with the recorded user and permissions unchanged, a context iff the slot held a success, and `Degraded` iff there is no context; the vector-memory outcome never makes a 500 |
| `FanIn.CriticalErrorIs500` | internal/handlers/chat_summary.go:136-142 | a trace holding an error answer from either critical dependency always gives 500, before or after the deadline |
| `FanIn.UserErrorsAre500` | internal/handlers/chat_summary.go:136-142 | if every user answer in the trace is an error, the reply is 500 |
| `FanIn.SlowCriticalExceedsSla` | internal/handlers/chat_summary.go:117-125 | when a critical answer has not arrived by the first deadline, the loop ends there and the reply is the SLA 500 |
| `FanIn.LateVectorMemoryDegrades` | internal/handlers/chat_summary.go:151-172 | both critical calls succeed before the deadline but vector memory answers after them: 200 with those payloads, no context, degraded |
| `FanIn.EarlyVectorMemoryCompletes` | internal/handlers/chat_summary.go:151-172 | both critical calls succeed before the deadline and vector memory succeeded earlier: 200 with its context, not degraded |
| `FanIn.TestDelaysDegrade` | internal/handlers/chat_summary_test.go:59-84 | with the tests' delays (user, then permissions, then vector memory) the reply is 200, degraded, without context |
| `Handlers.FailingUserMockIs500` | internal/mocks/mocks.go:29-31 | a user mock configured to fail makes every dispatched request end in 500, whatever the timing |
| `Handlers.UserFailOverrideIs500` | internal/handlers/chat_summary_test.go:87-103 | `user_fail=1`, or any other true spelling, makes the request end in 500 whatever the order of events |

## Left out

- Goroutines, buffered channels and `select` (`internal/handlers/chat_summary.go:90-134`)
  are replaced by an event trace. The loop's vector-memory slot stands for the channel's
  buffer. A vector-memory answer that arrives after the loop but before the non-blocking
  read is the same as a `VmDone` just before the last critical event.
- `context.WithTimeout`, the 200ms SLA and wall-clock time are replaced by the `Deadline`
  event. The latency bounds the tests check are timing measurements and are not modelled.
- The body of `time.ParseDuration` is a library call that is not part of this model. It
  is a parameter `lib: string -> Option<Duration>`.
- `writeJSON`, JSON encoding (including `omitempty`) and the response headers are not
  modelled. The model has only the status code and the body record or error message.
- Parsing of the raw URL into query values is not modelled. The model starts from the
  parsed `map<string, seq<string>>`.
- The Go type assertions on the concrete mock types (`internal/handlers/chat_summary.go:54`,
  `:65`, `:79`) are test scaffolding. The handler's fields are the mock configurations
  themselves, so the override always applies.
- A mock's delay has two effects. Its sign decides whether `Mocks.SleepCtx` waits at all:
  a delay of zero or less never waits. Its length decides when the answer arrives, and
  that is captured only by the position of the mock's event in the trace. Whether the
  context fired during a positive delay is the `cancelled` parameter. The timer itself and
  the elapsed time (`LatencyMs`) are not modelled; `LatencyMs` is a parameter.
- A dependency's zero-value payload that accompanies an error is dropped (`Outcome`),
  because the handler never reads it.
- Server startup, routing and shutdown (`cmd/gateway/main.go`, `internal/app/app.go`)
  are not modelled.
- `Handlers.Handlers.ChatSummary` is one Go function. In the model it delegates the
  override step to `PerRequestCopy` and the fan-in to `Collect`, with the same
  statements in the same order.
