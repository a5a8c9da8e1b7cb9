/** The promise-returning `setTimeout` that the mock installs in place of
    `timers/promises`: a one-shot timer plus a promise that settles once,
    either when the timer fires or when the abort signal fires. Events
    reach the promise as a sequence instead of through the event loop. */
module TimeoutPromise {
  import opened JsValues
  import opened TimerOrder
  import opened TimerQueue
  import opened MockTimers

  /** An abort signal as the adapter sees it: whether the signal validator
      accepts it (the validator itself is not modelled), and its `aborted`
      flag and `reason` at the time of the call. */
  datatype Signal = Signal(wellFormed: bool, aborted: bool, reason: Value)

  /** The rejection reasons: the validator's error, or an AbortError whose
      cause is the signal's reason. */
  datatype Failure = InvalidSignal | AbortError(cause: Value)

  datatype Settlement = Pending | Resolved(value: Value) | Rejected(error: Failure)

  /** The promise with what its callbacks close over: the id of the timer
      behind it (none when it was rejected up front), the `result`
      argument, and whether the abort listener is registered. */
  datatype Timeout = Timeout(settlement: Settlement, timer: Option<int>, result: Value, listening: bool)

  datatype Started = Started(state: State, promise: Timeout)

  /** `#setTimeoutPromisified(ms, result, { signal })`. A signal the
      validator rejects, or one already aborted, rejects the promise at
      once and creates no timer. Otherwise one one-shot timer with no
      arguments is created for `ms`, the promise is pending on it, and the
      abort listener is registered exactly when a signal was given. */
  function SetTimeoutPromisified(s: State, ms: int, result: Value, signal: Option<Signal>, wallClock: int): (r: Started)
    ensures signal.Some? && !signal.value.wellFormed ==>
              r == Started(s, Timeout(Rejected(InvalidSignal), None, result, false))
    ensures signal.Some? && signal.value.wellFormed && signal.value.aborted ==>
              r == Started(s, Timeout(Rejected(AbortError(signal.value.reason)), None, result, false))
    ensures signal.None? || (signal.value.wellFormed && !signal.value.aborted) ==>
              && r.promise == Timeout(Pending, Some(s.currentTimer), result, signal.Some?)
              && r.state.currentTimer == s.currentTimer + 1
              && r.state.now == s.now && r.state.isEnabled == s.isEnabled
              && multiset(r.state.queue)
                 == multiset(s.queue) + multiset{Timer(s.currentTimer, wallClock + ms, false, [])}
              && r.state == CreateTimer(s, false, ms, [], wallClock).state
    ensures Valid(s) ==> Valid(r.state)
  {
    if signal.Some? && !signal.value.wellFormed then
      Started(s, Timeout(Rejected(InvalidSignal), None, result, false))
    else if signal.Some? && signal.value.aborted then
      Started(s, Timeout(Rejected(AbortError(signal.value.reason)), None, result, false))
    else
      var c := CreateTimer(s, false, ms, [], wallClock);
      Started(c.state, Timeout(Pending, Some(c.id), result, signal.Some?))
  }

  /** What can happen to a pending promise: the timer with the given id
      fires, or the signal aborts with the given reason. */
  datatype Event = TimerFired(id: int) | SignalAborted(reason: Value)

  /** Settling a promise that is already settled has no effect. */
  function Settle(current: Settlement, outcome: Settlement): Settlement {
    if current.Pending? then outcome else current
  }

  /** One event. The timer callback removes the abort listener and
      resolves with `result || id`; the abort listener rejects with an
      AbortError carrying the reason. Its call to `clearTimeout(id)` is not
      modelled: the queue removes by position, not by id. Once settled, the
      promise never changes its settlement, and the only changes are the
      two the callbacks make. */
  function OnEvent(p: Timeout, e: Event): (q: Timeout)
    ensures q.timer == p.timer && q.result == p.result
    ensures !p.settlement.Pending? ==> q.settlement == p.settlement
    ensures !(e.TimerFired? && p.timer == Some(e.id)) ==> q.listening == p.listening
    ensures q.settlement != p.settlement ==>
              || (e.TimerFired? && p.timer == Some(e.id)
                  && q.settlement == Resolved(Or(p.result, Num(e.id))))
              || (e.SignalAborted? && p.listening
                  && q.settlement == Rejected(AbortError(e.reason)))
    ensures p.settlement.Pending? && e.TimerFired? && p.timer == Some(e.id) ==>
              q.settlement == Resolved(Or(p.result, Num(e.id))) && !q.listening
    ensures p.settlement.Pending? && e.SignalAborted? && p.listening ==>
              q.settlement == Rejected(AbortError(e.reason))
  {
    match e
    case TimerFired(id) =>
      if p.timer == Some(id) then
        p.(listening := false, settlement := Settle(p.settlement, Resolved(Or(p.result, Num(id)))))
      else p
    case SignalAborted(reason) =>
      if p.listening then p.(settlement := Settle(p.settlement, Rejected(AbortError(reason))))
      else p
  }

  /** A sequence of events, in order. */
  function Replay(p: Timeout, es: seq<Event>): Timeout
    decreases |es|
  {
    if |es| == 0 then p else Replay(OnEvent(p, es[0]), es[1..])
  }

  /** The events a `tick` delivers: one timer firing per fired timer. */
  function Firings(fired: seq<Timer>): (es: seq<Event>)
    ensures |es| == |fired|
    ensures forall i :: 0 <= i < |fired| ==> es[i] == TimerFired(fired[i].id)
  {
    seq(|fired|, i requires 0 <= i < |fired| => TimerFired(fired[i].id))
  }

  /** Settle-once: a settled promise keeps its settlement whatever events
      follow. */
  lemma {:induction false} SettledStaysSettled(p: Timeout, es: seq<Event>)
    requires !p.settlement.Pending?
    ensures Replay(p, es).settlement == p.settlement
    decreases |es|
  {
    if |es| > 0 {
      SettledStaysSettled(OnEvent(p, es[0]), es[1..]);
    }
  }

  /** Exactly one of resolve and reject wins: whichever effective event
      comes first decides the settlement for good. */
  lemma FirstEventDecides(p: Timeout, e: Event, es: seq<Event>)
    requires p.settlement.Pending?
    requires (e.TimerFired? && p.timer == Some(e.id)) || (e.SignalAborted? && p.listening)
    ensures e.TimerFired? ==> Replay(p, [e] + es).settlement == Resolved(Or(p.result, Num(e.id)))
    ensures e.SignalAborted? ==> Replay(p, [e] + es).settlement == Rejected(AbortError(e.reason))
  {
    assert ([e] + es)[1..] == es;
    SettledStaysSettled(OnEvent(p, e), es);
  }

  /** Once the timer has fired, the listener is gone, so a later abort
      changes nothing at all. */
  lemma AbortAfterFireIgnored(p: Timeout, id: int, reason: Value)
    requires p.timer == Some(id)
    ensures var q := OnEvent(p, TimerFired(id));
      OnEvent(q, SignalAborted(reason)) == q
  {
  }

  /** Firings of other timers leave the promise as it was: still pending
      when it was, and still listening for an abort when it was. */
  lemma {:induction false} UnrelatedFiringsIgnored(p: Timeout, fired: seq<Timer>)
    requires forall t :: t in fired ==> p.timer != Some(t.id)
    ensures var q := Replay(p, Firings(fired));
      q.settlement == p.settlement && q.listening == p.listening && q.timer == p.timer
    decreases |fired|
  {
    if |fired| > 0 {
      var es := Firings(fired);
      assert fired[0] in fired;
      assert Firings(fired[1..]) == es[1..];
      assert forall t :: t in fired[1..] ==> t in fired;
      UnrelatedFiringsIgnored(OnEvent(p, es[0]), fired[1..]);
    }
  }

  /** An abort after any number of unrelated firings still rejects. */
  lemma AbortAfterUnrelatedFiringsRejects(p: Timeout, fired: seq<Timer>, reason: Value)
    requires p.settlement.Pending? && p.listening
    requires forall t :: t in fired ==> p.timer != Some(t.id)
    ensures OnEvent(Replay(p, Firings(fired)), SignalAborted(reason)).settlement
            == Rejected(AbortError(reason))
  {
    UnrelatedFiringsIgnored(p, fired);
  }

  /** A timer fired by `tick` resolves its pending promise with `result`
      when that is truthy and with the timer's id otherwise, however many
      other timers fire around it. */
  lemma {:induction false} FiredTimerResolves(p: Timeout, fired: seq<Timer>)
    requires p.settlement.Pending? && p.timer.Some?
    requires exists t :: t in fired && t.id == p.timer.value
    ensures Replay(p, Firings(fired)).settlement == Resolved(Or(p.result, Num(p.timer.value)))
    decreases |fired|
  {
    var es := Firings(fired);
    var q := OnEvent(p, es[0]);
    assert es == [es[0]] + es[1..];
    if fired[0].id == p.timer.value {
      FirstEventDecides(p, es[0], es[1..]);
    } else {
      assert Firings(fired[1..]) == es[1..];
      assert q.settlement.Pending? && q.timer == p.timer && q.result == p.result;
      var t :| t in fired && t.id == p.timer.value;
      assert t in fired[1..];
      FiredTimerResolves(q, fired[1..]);
    }
  }

  /** On a clock with nothing pending, `setTimeout(ms, result)` followed by
      a `tick` that reaches the timer's due time fires exactly that timer,
      empties the queue, and resolves with `result || id`. */
  lemma ScheduleThenTickResolves(s: State, ms: int, result: Value, wallClock: int, time: int)
    requires Valid(s) && s.queue == []
    requires s.now + time >= wallClock + ms
    ensures var st := SetTimeoutPromisified(s, ms, result, None, wallClock);
      var t := Tick(st.state, Some(time));
      && t.fired == [Timer(s.currentTimer, wallClock + ms, false, [])]
      && t.state.queue == []
      && Replay(st.promise, Firings(t.fired)).settlement == Resolved(Or(result, Num(s.currentTimer)))
  {
    var st := SetTimeoutPromisified(s, ms, result, None, wallClock);
    var timer := Timer(s.currentTimer, wallClock + ms, false, []);
    assert st.state.queue == [timer];
    var t := Tick(st.state, Some(time));
    assert Drain(t.state.now, []) == Drained([], []);
    assert Drain(t.state.now, [timer]) == Drained([], [timer]);
    assert t.fired == [timer];
    FiredTimerResolves(st.promise, t.fired);
  }

  /** An abort that arrives before the timer fires rejects the promise with
      an AbortError; no later tick can resolve it. */
  lemma AbortBeforeFireRejects(s: State, ms: int, result: Value, signal: Signal, wallClock: int, reason: Value, fired: seq<Timer>)
    requires signal.wellFormed && !signal.aborted
    ensures var st := SetTimeoutPromisified(s, ms, result, Some(signal), wallClock);
      var p := OnEvent(st.promise, SignalAborted(reason));
      && p.settlement == Rejected(AbortError(reason))
      && Replay(p, Firings(fired)).settlement == Rejected(AbortError(reason))
  {
    var st := SetTimeoutPromisified(s, ms, result, Some(signal), wallClock);
    SettledStaysSettled(OnEvent(st.promise, SignalAborted(reason)), Firings(fired));
  }
}
