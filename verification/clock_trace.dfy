/** Sequences of calls on one clock: the ids it hands out over its whole
    lifetime, across ticks, enables and resets. */
module ClockTrace {
  import opened JsValues
  import opened TimerOrder
  import opened TimerQueue
  import opened MockTimers
  import opened TimeoutPromise

  /** One public call: `setTimeout`/`setInterval` (with the wall-clock
      reading taken at the call), the promise-returning `setTimeout`,
      `tick`, `enable` or `reset`. */
  datatype Op =
    | SetTimer(isInterval: bool, delay: int, args: seq<Value>, wallClock: int)
    | SetTimeoutPromise(ms: int, result: Value, signal: Option<Signal>, wallClock: int)
    | TickBy(time: Option<int>)
    | EnableAt(wallClock: int)
    | ResetClock

  /** The state after some calls, the ids the creating calls returned, and
      the timers fired along the way, in order. */
  datatype Outcome = Outcome(state: State, issued: seq<int>, fired: seq<Timer>)

  /** One call. Only a creating call returns an id: every `setTimeout`/
      `setInterval`, and a promise-returning `setTimeout` that was not
      rejected up front. Only `tick` fires. */
  function Step(s: State, op: Op): (r: Outcome)
    ensures op.SetTimer? ==> r.issued == [s.currentTimer]
    ensures op.SetTimeoutPromise? ==>
              r.issued == (if op.signal.None? || (op.signal.value.wellFormed && !op.signal.value.aborted)
                           then [s.currentTimer] else [])
    ensures !op.SetTimer? && !op.SetTimeoutPromise? ==> r.issued == []
    ensures r.state.currentTimer == s.currentTimer + |r.issued|
    ensures !op.TickBy? ==> r.fired == []
  {
    match op
    case SetTimer(isInterval, delay, args, wallClock) =>
      var c := CreateTimer(s, isInterval, delay, args, wallClock);
      Outcome(c.state, [c.id], [])
    case SetTimeoutPromise(ms, result, signal, wallClock) =>
      var st := SetTimeoutPromisified(s, ms, result, signal, wallClock);
      var issued := if st.promise.timer.Some? then [st.promise.timer.value] else [];
      Outcome(st.state, issued, [])
    case TickBy(time) =>
      var t := Tick(s, time);
      Outcome(t.state, [], t.fired)
    case EnableAt(wallClock) => Outcome(Enable(s, wallClock), [], [])
    case ResetClock => Outcome(Reset(s), [], [])
  }

  /** A sequence of calls, from first to last. */
  function Run(s: State, ops: seq<Op>): (r: Outcome)
    decreases |ops|
  {
    if |ops| == 0 then Outcome(s, [], [])
    else
      var o := Step(s, ops[0]);
      var rest := Run(o.state, ops[1..]);
      Outcome(rest.state, o.issued + rest.issued, o.fired + rest.fired)
  }

  /** One call keeps the state valid, and whatever it fires carries an id
      issued before the call. */
  lemma StepKeepsValid(s: State, op: Op)
    requires Valid(s)
    ensures Valid(Step(s, op).state)
    ensures forall t :: t in Step(s, op).fired ==> 1 <= t.id < s.currentTimer
  {
    if op.TickBy? {
      var now := Tick(s, op.time).state.now;
      var d := Drain(now, s.queue);
      forall t | t in d.fired ensures 1 <= t.id < s.currentTimer {
        var i :| 0 <= i < |d.fired| && d.fired[i] == t;
        assert s.queue[i] == t;
      }
    }
  }

  /** Ids are handed out consecutively from the counter: the n-th creating
      call gets the counter's value plus n, across ticks (which re-insert
      interval timers under their old id, without touching the counter),
      enables and resets. */
  lemma {:induction false} RunIssuesConsecutiveIds(s: State, ops: seq<Op>)
    ensures var r := Run(s, ops);
      && r.state.currentTimer == s.currentTimer + |r.issued|
      && (forall i :: 0 <= i < |r.issued| ==> r.issued[i] == s.currentTimer + i)
    decreases |ops|
  {
    if |ops| > 0 {
      var o := Step(s, ops[0]);
      RunIssuesConsecutiveIds(o.state, ops[1..]);
      var rest := Run(o.state, ops[1..]);
      var r := Run(s, ops);
      assert r.issued == o.issued + rest.issued;
      forall i | 0 <= i < |r.issued| ensures r.issued[i] == s.currentTimer + i {
        if i >= |o.issued| {
          assert r.issued[i] == rest.issued[i - |o.issued|];
        }
      }
    }
  }

  /** Any sequence of calls keeps the state valid, so queued ids stay
      unique and below the counter, and every fired timer carries an id
      that was issued. Together with RunIssuesConsecutiveIds: a new id
      never repeats one that is queued or was fired. */
  lemma {:induction false} RunKeepsValid(s: State, ops: seq<Op>)
    requires Valid(s)
    ensures var r := Run(s, ops);
      && Valid(r.state)
      && (forall t :: t in r.fired ==> 1 <= t.id < r.state.currentTimer)
    decreases |ops|
  {
    if |ops| > 0 {
      var o := Step(s, ops[0]);
      StepKeepsValid(s, ops[0]);
      RunKeepsValid(o.state, ops[1..]);
      RunIssuesConsecutiveIds(o.state, ops[1..]);
      var rest := Run(o.state, ops[1..]);
      var r := Run(s, ops);
      forall t | t in r.fired ensures 1 <= t.id < r.state.currentTimer {
        if t !in rest.fired {
          assert t in o.fired;
        }
      }
    }
  }

  /** On a fresh clock the ids are 1, 2, 3, … in call order, so every id
      differs from every other. */
  lemma FreshClockIdsStartAtOne(wallClock: int, ops: seq<Op>)
    ensures var r := Run(Init(wallClock), ops);
      && (forall i :: 0 <= i < |r.issued| ==> r.issued[i] == i + 1)
      && (forall i, j :: 0 <= i < j < |r.issued| ==> r.issued[i] < r.issued[j])
  {
    RunIssuesConsecutiveIds(Init(wallClock), ops);
  }
}
