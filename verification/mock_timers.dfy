/** The virtual clock of `MockTimers`: a state of virtual time, the next
    timer id, the enabled flag and the queue of pending timers, with the
    operations that create timers, advance time, enable and reset. Every
    operation is a pure function from the old state to the new one. */
module MockTimers {
  import opened JsValues
  import opened TimerOrder
  import opened TimerQueue

  /** `now` is the virtual time, `currentTimer` the id the next timer gets,
      `isEnabled` whether the clock is installed. */
  datatype State = State(now: int, currentTimer: int, isEnabled: bool, queue: seq<Timer>)

  /** What every reachable state satisfies: the queue is in comparator
      order, ids are unique, and every queued id was issued earlier (it is
      at least 1 and below the next id). */
  predicate Valid(s: State) {
    && s.currentTimer >= 1
    && Sorted(s.queue)
    && DistinctIds(s.queue)
    && IdsBelow(s.queue, s.currentTimer)
  }

  /** A freshly constructed clock: disabled, empty, first id 1, and `now`
      read from the wall clock at construction. */
  function Init(wallClock: int): (s: State)
    ensures Valid(s)
    ensures s.queue == [] && s.currentTimer == 1 && !s.isEnabled
    ensures s.now == wallClock
  {
    State(wallClock, 1, false, [])
  }

  // ---------------------------------------------------------------------
  // Timer creation
  // ---------------------------------------------------------------------

  datatype Created = Created(state: State, id: int)

  /** `#createTimer`: takes the current counter value as the id, bumps the
      counter, and queues a timer due at the wall-clock reading plus the
      delay (not at the virtual `now`). Only the boolean `isInterval` is
      stored, never the delay. */
  function CreateTimer(s: State, isInterval: bool, delay: int, args: seq<Value>, wallClock: int): (r: Created)
    ensures r.id == s.currentTimer
    ensures r.state.currentTimer == s.currentTimer + 1
    ensures multiset(r.state.queue)
         == multiset(s.queue) + multiset{Timer(r.id, wallClock + delay, isInterval, args)}
    ensures r.state.now == s.now && r.state.isEnabled == s.isEnabled
    ensures Valid(s) ==> Valid(r.state) && FreshId(s.queue, r.id)
  {
    var timerId := s.currentTimer;
    var timer := Timer(timerId, wallClock + delay, isInterval, args);
    InsertSorted(s.queue, timer);
    InsertDistinct(s.queue, timer);
    Created(s.(currentTimer := s.currentTimer + 1, queue := Insert(s.queue, timer)), timerId)
  }

  // ---------------------------------------------------------------------
  // Advancing time
  // ---------------------------------------------------------------------

  /** `timer.runAt += timer.interval`: the stored flag is a boolean, so the
      due time moves by ToNumber(true) = 1, whatever the original delay. */
  function Reschedule(t: Timer): (r: Timer)
    requires t.interval
    ensures r.runAt == t.runAt + 1
    ensures r.id == t.id && r.interval && r.args == t.args
  {
    t.(runAt := t.runAt + BoolToNumber(t.interval))
  }

  /** The last timer fired in one advance was an interval timer. */
  predicate EndsWithInterval(fired: seq<Timer>) {
    |fired| > 0 && fired[|fired| - 1].interval
  }

  datatype Drained = Drained(queue: seq<Timer>, fired: seq<Timer>)

  /** The firing loop of `tick`, once `now` has been advanced: while the
      head is due, log it and shift it; an interval head is rescheduled,
      re-inserted, and ends the loop. The fired timers are a prefix of the
      queue, all due, and all one-shot except possibly the last; what the
      loop leaves in the queue is stated by DrainRemaining. */
  function Drain(now: int, q: seq<Timer>): (r: Drained)
    ensures |r.fired| <= |q| && r.fired == q[..|r.fired|]
    ensures forall i :: 0 <= i < |r.fired| ==> r.fired[i].runAt <= now
    ensures forall i :: 0 <= i < |r.fired| - 1 ==> !r.fired[i].interval
    decreases |q|
  {
    match Peek(q)
    case None => Drained(q, [])
    case Some(head) =>
      if head.runAt > now then Drained(q, [])
      else if head.interval then
        Drained(Insert(Shift(q), Reschedule(head)), [head])
      else
        var rest := Drain(now, Shift(q));
        var k := |rest.fired|;
        assert rest.fired == q[1..k + 1];
        assert q[..k + 1] == [head] + q[1..k + 1];
        Drained(rest.queue, [head] + rest.fired)
  }

  /** What the firing loop leaves queued: after an interval timer fires,
      the unfired rest plus that timer rescheduled; otherwise the unfired
      rest, whose head (if any) is not yet due. */
  lemma {:induction false} DrainRemaining(now: int, q: seq<Timer>)
    ensures var r := Drain(now, q); var k := |r.fired|;
      && (EndsWithInterval(r.fired) ==> r.queue == Insert(q[k..], Reschedule(r.fired[k - 1])))
      && (!EndsWithInterval(r.fired) ==> r.queue == q[k..] && (k == |q| || q[k].runAt > now))
    decreases |q|
  {
    if |q| > 0 && q[0].runAt <= now && !q[0].interval {
      var tail := q[1..];
      DrainRemaining(now, tail);
      var rest := Drain(now, tail);
      var r := Drain(now, q);
      var k := |rest.fired|;
      assert r.fired == [q[0]] + rest.fired;
      assert EndsWithInterval(r.fired) <==> EndsWithInterval(rest.fired);
      assert q[k + 1..] == tail[k..];
    }
  }

  datatype Ticked = Ticked(state: State, fired: seq<Timer>)

  /** `tick(time = 1)`: the default applies only when the argument is
      omitted. */
  function TickAmount(time: Option<int>): (d: int)
    ensures time.None? ==> d == 1
    ensures time.Some? ==> d == time.value
  {
    match time
    case None => 1
    case Some(t) => t
  }

  /** `tick`: advance `now` by the amount, then run the firing loop. The
      fired timers are returned in firing order instead of calling their
      callbacks. The id counter and the enabled flag are untouched, and a
      valid state stays valid. */
  function Tick(s: State, time: Option<int>): (r: Ticked)
    ensures r.state.now == s.now + TickAmount(time)
    ensures r.state.currentTimer == s.currentTimer && r.state.isEnabled == s.isEnabled
    ensures Valid(s) ==> Valid(r.state)
  {
    var now := s.now + TickAmount(time);
    var d := Drain(now, s.queue);
    DrainKeepsValid(now, s);
    Ticked(s.(now := now, queue := d.queue), d.fired)
  }

  /** Every queued id lies in the issued range `[1, next)`. */
  predicate IdsBelow(q: seq<Timer>, next: int) {
    forall t :: t in q ==> 1 <= t.id < next
  }

  /** The firing loop keeps the queue sorted, ids unique and every id below
      the counter. */
  lemma DrainKeepsValid(now: int, s: State)
    ensures Valid(s) ==> Valid(s.(now := now, queue := Drain(now, s.queue).queue))
  {
    if Valid(s) {
      var q := s.queue;
      var d := Drain(now, q);
      var k := |d.fired|;
      assert IdsBelow(q, s.currentTimer);
      DrainRemaining(now, q);
      SuffixValid(q, k, s.currentTimer);
      if EndsWithInterval(d.fired) {
        assert d.fired[k - 1] == q[k - 1] && q[k - 1] in q;
        ReinsertKeepsValid(q, k, s.currentTimer);
      }
    }
  }

  /** Re-inserting the last fired timer, rescheduled, behind the unfired
      rest keeps the queue sorted, ids unique and ids in range. */
  lemma ReinsertKeepsValid(q: seq<Timer>, k: nat, next: int)
    requires 0 < k <= |q| && q[k - 1].interval
    requires Sorted(q) && DistinctIds(q) && IdsBelow(q, next)
    ensures var r := Insert(q[k..], Reschedule(q[k - 1]));
      Sorted(r) && DistinctIds(r) && IdsBelow(r, next)
  {
    var rest := q[k..];
    var t := Reschedule(q[k - 1]);
    SuffixValid(q, k, next);
    forall x | x in rest ensures x.id != t.id {
      var j :| 0 <= j < |rest| && rest[j] == x;
      assert rest[j] == q[k + j];
    }
    InsertSorted(rest, t);
    InsertDistinct(rest, t);
    assert q[k - 1] in q;
  }

  /** A suffix of a valid queue is sorted, has unique ids, and ids in
      range. */
  lemma SuffixValid(q: seq<Timer>, k: nat, next: int)
    requires k <= |q| && Sorted(q) && DistinctIds(q) && IdsBelow(q, next)
    ensures Sorted(q[k..]) && DistinctIds(q[k..]) && IdsBelow(q[k..], next)
  {
    forall i, j | 0 <= i < j < |q[k..]|
      ensures NotAfter(q[k..][i], q[k..][j]) && q[k..][i].id != q[k..][j].id
    {
      assert q[k..][i] == q[k + i] && q[k..][j] == q[k + j];
    }
    forall x | x in q[k..] ensures 1 <= x.id < next {
      var j :| 0 <= j < |q[k..]| && q[k..][j] == x;
      assert q[k + j] == x;
    }
  }

  // ---------------------------------------------------------------------
  // Enabling and resetting
  // ---------------------------------------------------------------------

  /** The part of `enable` this model keeps: `now` is re-read from the wall
      clock and the clock is marked enabled; pending timers and the id
      counter carry over. */
  function Enable(s: State, wallClock: int): (r: State)
    ensures r.isEnabled && r.now == wallClock
    ensures r.queue == s.queue && r.currentTimer == s.currentTimer
    ensures Valid(s) ==> Valid(r)
  {
    s.(now := wallClock, isEnabled := true)
  }

  /** The draining loop at the end of `reset`: peek and shift until the
      peek finds nothing. */
  function DrainAll(q: seq<Timer>): (r: seq<Timer>)
    ensures r == []
    decreases |q|
  {
    match Peek(q)
    case None => q
    case Some(_) => DrainAll(Shift(q))
  }

  /** `reset`: the clock is disabled and every pending timer is discarded.
      Virtual time and the id counter are left alone, so ids issued after a
      reset still never repeat earlier ones. */
  function Reset(s: State): (r: State)
    ensures !r.isEnabled && r.queue == []
    ensures r.now == s.now && r.currentTimer == s.currentTimer
    ensures s.currentTimer >= 1 ==> Valid(r)
  {
    s.(isEnabled := false, queue := DrainAll(s.queue))
  }
}
