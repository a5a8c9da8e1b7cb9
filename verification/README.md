# MockTimers virtual clock, modelled in Dafny

This project models the virtual-time scheduler of Node.js's test-runner
`MockTimers` (`lib/internal/test_runner/mock/mock_timers.js`): the
comparator that orders pending timers, timer creation, the `tick` loop that
advances virtual time and fires due timers, the queue drain in `reset`, the
`enable`/`reset` flag, and the promise-returning `setTimeout` with its
abort signal. Everything is a pure function over an immutable state record
`State(now, currentTimer, isEnabled, queue)`.

Modules, one per component:

- `JsValues` (`js_values.dfy`): the JavaScript values involved, ToBoolean
  truthiness, `||`, and ToNumber on booleans.
- `TimerOrder` (`timer_order.dfy`): the timer record and `compareTimersLists`.
- `TimerQueue` (`timer_queue.dfy`): the priority queue, abstracted as a
  sequence kept in comparator order. `peek` is the first element, `shift`
  drops it, `insert` is a sorted insert. The heap inside the real queue is
  not part of this model. `SortedUnique` shows the abstraction loses
  nothing that `peek`, `shift` and `insert` observe: with unique ids, a
  sorted sequence is fixed by its contents. What it does drop is the heap
  layout, which only `removeAt(position)` observes (see "Left out").
- `MockTimers` (`mock_timers.dfy`): the clock state and its operations.
- `TickProperties` (`tick_properties.dfy`): what one `tick` promises.
- `ClockTrace` (`clock_trace.dfy`): sequences of calls, and the ids they hand out.
- `TimeoutPromise` (`timeout_promise.dfy`): the promisified `setTimeout`
  as a Pending/Resolved/Rejected state machine driven by events.

Inputs the code takes from outside are parameters. `DateNow()` is a
`wallClock` argument. `validateAbortSignal` becomes the signal's
`wellFormed` flag. Callbacks are not executed. Firing a timer appends the
timer record (id, due time, interval flag, arguments) to a log, in firing
order. A timer firing and a signal abort reach the promise as `Event`s.

The model follows the code where it departs from the obvious intent:

- A timer's due time is the wall-clock reading plus the delay, not the
  virtual `now` plus the delay (line 68).
- Only the boolean `interval` flag is stored, not the delay. Rescheduling
  does `runAt += interval`, which adds 1 (line 138), so an interval timer
  that fires comes back due one unit later, whatever its period.
  `LoneIntervalFiresOncePerTick` spells out what this means: once due, a
  lone interval timer fires once on each tick, and again on any following
  tick of at least one unit.
- `tick` stops after the first interval timer it fires (line 140).
- `clearTimeout`/`clearInterval` hand their argument to `removeAt` as a
  queue position, not as an id (line 77). Nothing here claims they cancel
  the timer with that id.
- The promise resolves with `result || id` (line 112). Any falsy `result`
  (undefined, null, false, 0, "") gives the timer id.
- `reset` does not reset the id counter or `now`. Ids keep increasing
  across resets (`RunIssuesConsecutiveIds`).

## Model

| member | source | states |
|---|---|---|
| `JsValues.Or` | lib/internal/test_runner/mock/mock_timers.js:112 | JavaScript's logical or returns one of its operands. The result is truthy iff either operand is. It is the right operand exactly when the left one is falsy. |
| `JsValues.Truthy` | lib/internal/test_runner/mock/mock_timers.js:112 | ToBoolean behind `result` in `result` or `id`: the falsy values are exactly undefined, null, false, 0 and the empty string, and every object is truthy. |
| `JsValues.BoolToNumber` | lib/internal/test_runner/mock/mock_timers.js:138 | A boolean used in `+=` counts as 0 or 1, and as nonzero exactly when it is true. |
| `TimerOrder.Compare` | lib/internal/test_runner/mock/mock_timers.js:24-26 | The comparator is lexicographic on (runAt, id). It is negative, zero or positive exactly when the first timer is earlier, equal in both keys, or later. |
| `TimerOrder.CompareAntisymmetric` | lib/internal/test_runner/mock/mock_timers.js:24-26 | Swapping the operands negates the comparison. |
| `TimerOrder.CompareTotalOnDistinctIds` | lib/internal/test_runner/mock/mock_timers.js:24-26 | Two timers with different ids never compare equal. Exactly one of them comes first. |
| `TimerOrder.CompareTransitive` | lib/internal/test_runner/mock/mock_timers.js:24-26 | The order is transitive, in its strict and non-strict forms. |
| `TimerQueue.Insert` | lib/internal/test_runner/mock/mock_timers.js:64-71 | Inserting adds exactly the new timer: the length grows by one, the multiset gains that timer, and nothing else changes. |
| `TimerQueue.InsertSorted` | lib/internal/test_runner/mock/mock_timers.js:51 | Inserting into a queue in comparator order keeps it in that order. |
| `TimerQueue.InsertDistinct` | lib/internal/test_runner/mock/mock_timers.js:63-71 | Inserting a timer whose id is not queued keeps the queued ids unique. |
| `TimerQueue.Peek` | lib/internal/test_runner/mock/mock_timers.js:128-144 | `peek` gives nothing exactly when the queue is empty, and otherwise the first timer in queue order. That this timer is the earliest is `HeadFirst`. |
| `TimerQueue.Shift` | lib/internal/test_runner/mock/mock_timers.js:134 | `shift` on a non-empty queue leaves exactly the timers behind the head, and on an empty queue leaves it empty. |
| `TimerQueue.ShiftKeepsOrder` | lib/internal/test_runner/mock/mock_timers.js:200-203 | Shifting removes one copy of the head and nothing else. A sorted queue with unique ids stays sorted with unique ids. |
| `TimerQueue.HeadFirst` | lib/internal/test_runner/mock/mock_timers.js:128 | `peek` on a sorted queue gives a timer that is not after any queued timer. |
| `TimerQueue.SortedUnique` | lib/internal/test_runner/mock/mock_timers.js:51 | Two sorted queues with unique ids and the same timers are equal. Firing order depends only on which timers are pending. |
| `MockTimers.Init` | lib/internal/test_runner/mock/mock_timers.js:47-51 | A new clock is disabled and empty. Its first id is 1, `now` is the wall-clock reading, and the state is valid. |
| `MockTimers.CreateTimer` | lib/internal/test_runner/mock/mock_timers.js:62-74 | Returns the counter's old value and increments the counter by one. The queue gains exactly one timer: that id, due at wall clock plus delay, with the boolean interval flag and the arguments. `now` and the flag are unchanged. A valid state stays valid, and the new id was not queued. |
| `MockTimers.Reschedule` | lib/internal/test_runner/mock/mock_timers.js:137-139 | An interval timer keeps its id, flag and arguments, and its due time grows by exactly 1. |
| `MockTimers.Drain` | lib/internal/test_runner/mock/mock_timers.js:128-145 | The timers fired are a prefix of the queue. Each one was due, and every one but possibly the last is a one-shot timer. |
| `MockTimers.DrainRemaining` | lib/internal/test_runner/mock/mock_timers.js:128-145 | If the last fired timer is an interval timer, the queue is the unfired rest plus that timer rescheduled. Otherwise the queue is the unfired rest, and its head is not due. |
| `MockTimers.TickAmount` | lib/internal/test_runner/mock/mock_timers.js:119 | The default parameter `time = 1`: an omitted amount means 1, and a given amount, including 0 or a negative one, is used as is. |
| `MockTimers.Tick` | lib/internal/test_runner/mock/mock_timers.js:119-147 | `now` grows by exactly the amount given, or by 1 when it is omitted. The id counter and the enabled flag are unchanged, and a valid state stays valid. |
| `MockTimers.DrainKeepsValid` | lib/internal/test_runner/mock/mock_timers.js:128-145 | The firing loop keeps the queue sorted, ids unique and every id below the counter. |
| `MockTimers.ReinsertKeepsValid` | lib/internal/test_runner/mock/mock_timers.js:136-140 | Re-inserting a fired interval timer behind the unfired rest keeps the queue sorted, its ids unique and in range. |
| `MockTimers.Enable` | lib/internal/test_runner/mock/mock_timers.js:149-154 | Marks the clock enabled and re-reads `now` from the wall clock. Pending timers and the counter carry over. |
| `MockTimers.DrainAll` | lib/internal/test_runner/mock/mock_timers.js:200-204 | Peeking and shifting until the peek is empty leaves an empty queue. |
| `MockTimers.Reset` | lib/internal/test_runner/mock/mock_timers.js:183-204 | The clock ends disabled and its queue empty. `now` and the id counter are unchanged, and the result is valid. |
| `TickProperties.TickFiresInOrder` | lib/internal/test_runner/mock/mock_timers.js:128-145 | Fired timers come in strictly ascending (runAt, id) order, and each one has runAt at most the new `now`. |
| `TickProperties.TickLeavesNothingDue` | lib/internal/test_runner/mock/mock_timers.js:128-145 | If no interval timer fired, the old queue is the fired timers followed by the new queue, and every queued timer is due after the new `now`. |
| `TickProperties.TickReschedulesOneInterval` | lib/internal/test_runner/mock/mock_timers.js:136-141 | At most one interval timer fires per call, and only as the last firing. It is then queued again with the same id and arguments, due one unit later. It is the only queued timer with that id. |
| `TickProperties.DrainDropsFiredTimeouts` | lib/internal/test_runner/mock/mock_timers.js:131-144 | No timer left by the firing loop has the id of a one-shot timer it fired. |
| `TickProperties.TickDropsFiredTimeouts` | lib/internal/test_runner/mock/mock_timers.js:131-144 | A fired one-shot timer leaves no queued timer with its id. |
| `TickProperties.DrainKeepsFutureTimers` | lib/internal/test_runner/mock/mock_timers.js:128-129 | The firing loop keeps every timer that is due after `now`, unchanged. |
| `TickProperties.TickKeepsFutureTimers` | lib/internal/test_runner/mock/mock_timers.js:128-129 | Every queued timer due after the new `now` is still queued afterwards, unchanged. |
| `TickProperties.LoneIntervalFiresOncePerTick` | lib/internal/test_runner/mock/mock_timers.js:136-141 | A lone due interval timer fires exactly once per tick, however far the tick reaches, and comes back due one unit later. A following tick of any length of at least one unit fires it again. |
| `TickProperties.ResetIdempotent` | lib/internal/test_runner/mock/mock_timers.js:183-204 | Resetting twice gives the same state as resetting once, with an empty queue and a disabled clock. |
| `TickProperties.TickAfterResetFiresNothing` | lib/internal/test_runner/mock/mock_timers.js:200-204 | After a reset, a tick fires nothing and leaves the queue empty. |
| `ClockTrace.Step` | lib/internal/test_runner/mock/mock_timers.js:53-56 | `setTimeout`/`setInterval` return the counter's value as the id, after which the counter grows by one. The promise-returning `setTimeout` does the same unless it rejects up front, in which case it takes no id. No other call takes an id. Only `tick` fires timers. |
| `ClockTrace.StepKeepsValid` | lib/internal/test_runner/mock/mock_timers.js:62-147 | Every call keeps the state valid. Whatever it fires has an id issued before the call. |
| `ClockTrace.RunIssuesConsecutiveIds` | lib/internal/test_runner/mock/mock_timers.js:48-113 | Over any sequence of the modelled calls (`setTimeout`, `setInterval` and the promise-returning `setTimeout`, `tick`, `enable`, `reset`; no `clearTimeout`/`clearInterval` and no abort), the n-th call that takes an id returns the starting counter plus n, and the counter ends that far ahead. This holds across ticks, which re-insert interval timers under their old id, and across resets. |
| `ClockTrace.RunKeepsValid` | lib/internal/test_runner/mock/mock_timers.js:62-147 | Any sequence of the modelled calls (no `clearTimeout`/`clearInterval`, no abort) keeps the state valid: queue sorted, ids unique and below the counter. Every fired timer carries an issued id, so a new id never repeats a queued or fired one. |
| `ClockTrace.FreshClockIdsStartAtOne` | lib/internal/test_runner/mock/mock_timers.js:48-63 | On a new clock the ids are 1, 2, 3, and so on, in call order, and they strictly increase. |
| `TimeoutPromise.SetTimeoutPromisified` | lib/internal/test_runner/mock/mock_timers.js:90-117 | A signal that fails validation rejects with the validation error and creates no timer. So does an already aborted signal, which rejects with an AbortError whose cause is its reason. Otherwise the clock changes exactly as under `CreateTimer` for a one-shot timer with delay `ms` and no arguments, and the promise is pending on that timer's id. The abort listener is registered exactly when a signal was given. |
| `TimeoutPromise.OnEvent` | lib/internal/test_runner/mock/mock_timers.js:105-113 | A settled promise never changes its settlement. A pending one changes only when its own timer fires, which resolves with `result` if truthy, else with the id, and removes the listener. It also changes when a registered listener sees an abort, which rejects with an AbortError carrying the reason. Only its own timer firing removes the listener: any other event leaves `listening` as it was. |
| `TimeoutPromise.SettledStaysSettled` | lib/internal/test_runner/mock/mock_timers.js:91-116 | Once settled, the promise keeps its settlement through any sequence of events. |
| `TimeoutPromise.FirstEventDecides` | lib/internal/test_runner/mock/mock_timers.js:105-113 | Whichever effective event comes first, the firing or the abort, decides the settlement for good. |
| `TimeoutPromise.AbortAfterFireIgnored` | lib/internal/test_runner/mock/mock_timers.js:110-112 | After the timer fires, the listener is gone and an abort changes nothing. |
| `TimeoutPromise.FiredTimerResolves` | lib/internal/test_runner/mock/mock_timers.js:110-113 | If a tick fires the promise's timer among any other timers, the pending promise resolves with `result` if truthy, else with the timer's id. |
| `TimeoutPromise.ScheduleThenTickResolves` | lib/internal/test_runner/mock/mock_timers.js:90-113 | On an empty clock, `setTimeout(ms, result)` and then a tick reaching the due time fire exactly that timer. The queue ends empty and the promise resolves with `result` if truthy, else with the timer's id. |
| `TimeoutPromise.AbortBeforeFireRejects` | lib/internal/test_runner/mock/mock_timers.js:105-108 | An abort before the timer fires rejects with an AbortError carrying the reason. No later firing resolves the promise. |
| `TimeoutPromise.UnrelatedFiringsIgnored` | lib/internal/test_runner/mock/mock_timers.js:105-113 | Firings of timers other than the promise's own leave its settlement, its timer and its abort listener as they were. |
| `TimeoutPromise.AbortAfterUnrelatedFiringsRejects` | lib/internal/test_runner/mock/mock_timers.js:105-108 | A pending promise with a listener still rejects with an AbortError carrying the reason when the abort comes after any number of other timers have fired. |

## Left out

- `#clearTimer` (`clearTimeout`/`clearInterval`, lines 76-78): it calls `removeAt(position)` on the queue. The queue implementation is not part of this model. Which timer a given position removes depends on the heap layout, which the sorted-sequence abstraction does not keep.
- TimeoutPromise.OnEvent: the abort listener's `clearTimeout(id)` (line 106) is not modelled, for the same reason. The queue is left as it was. The promise outcome does not depend on it, because a later firing cannot change a settled promise (`SettledStaysSettled`).
- `#setIntervalPromisified` (lines 80-88): an async generator fed by an event emitter, which is event-loop plumbing. Each value it yields is the `startTime` it was given. It creates one interval timer, like `CreateTimer` with `isInterval` true.
- Swapping the global and `timers` bindings in `enable` and `reset` (lines 156-180, 186-198). This is process-wide substitution with no scheduling logic. Only `now`, the enabled flag and the queue drain are kept.
- `DateNow()` (lines 49, 68, 153): a wall-clock read, taken as the `wallClock` parameter.
- Executing callbacks, and callbacks that create timers, clear timers or call `tick` re-entrantly during the loop. Callbacks are opaque closures, so each firing is logged instead.
- A callback that throws. The callback runs before the `shift` (lines 131, 134), and `now` has already advanced (line 125). So the exception ends `tick` with the throwing timer still at the head of the queue, an interval timer not rescheduled, and the earlier firings done. The next `tick` fires that timer again. This error path is not modelled: every firing here completes.
- `validateAbortSignal`, the construction of `AbortError`, and the listener registration calls. These are foreign code. They are represented by the signal's `wellFormed` flag, the `Failure` values and the `listening` flag.
- A falsy signal that is not null or undefined (`0`, `false`, `""`) is treated as absent. In the code it skips validation but then fails when the listener is registered. This case is not modelled.
- An omitted delay, as in `setTimeout(fn)`. Line 68 then computes `DateNow() + undefined`, which is NaN, and a NaN due time never satisfies `runAt <= now` (line 129). So such a timer never fires, and the loop stops at it when it reaches the head. The model always takes an integer delay.
- JavaScript number semantics: times, delays and ids are unbounded integers. NaN, fractional delays, non-numeric delays (a string delay would concatenate) and -0 are not modelled. ToBoolean covers only the value kinds in `JsValues`.
- `emitExperimentalWarning` in the constructor (lines 58-60) and the empty `releaseAllTimers` (lines 207-209): neither affects the clock.
