/** What one call of `tick` promises about the timers it fires and the
    timers it leaves queued, and what `reset` leaves behind. */
module TickProperties {
  import opened JsValues
  import opened TimerOrder
  import opened TimerQueue
  import opened MockTimers

  // Facts about a valid queue split at `k` into fired prefix and rest.

  /** In a queue with unique ids, the timer at `i` shares its id with no
      timer of the suffix from `k > i` on. */
  lemma SuffixIdsDiffer(q: seq<Timer>, k: nat, i: nat)
    requires i < k <= |q| && DistinctIds(q)
    ensures forall x :: x in q[k..] ==> x.id != q[i].id
  {
    forall x | x in q[k..] ensures x.id != q[i].id {
      var j :| 0 <= j < |q[k..]| && q[k..][j] == x;
      assert q[k + j] == x;
    }
  }

  /** Past a prefix of due timers, every timer that is not due lies in the
      suffix. */
  lemma FutureInSuffix(q: seq<Timer>, k: nat, now: int)
    requires k <= |q|
    requires forall i :: 0 <= i < k ==> q[i].runAt <= now
    ensures forall t :: t in q && t.runAt > now ==> t in q[k..]
  {
    forall t | t in q && t.runAt > now ensures t in q[k..] {
      var j :| 0 <= j < |q| && q[j] == t;
      assert q[k..][j - k] == t;
    }
  }

  /** When a due prefix of the queue has fired and the rest is what is
      left (with the last fired timer requeued if it was an interval), no
      timer left carries the id of a fired one-shot timer. */
  lemma FiredIdsAbsent(q: seq<Timer>, fired: seq<Timer>, rest: seq<Timer>)
    requires DistinctIds(q) && |fired| <= |q| && fired == q[..|fired|]
    requires EndsWithInterval(fired) ==> rest == Insert(q[|fired|..], Reschedule(fired[|fired| - 1]))
    requires !EndsWithInterval(fired) ==> rest == q[|fired|..]
    ensures forall i, x :: 0 <= i < |fired| && !fired[i].interval && x in rest ==> x.id != fired[i].id
  {
    var k := |fired|;
    forall i, x | 0 <= i < k && !fired[i].interval && x in rest
      ensures x.id != fired[i].id
    {
      assert fired[i] == q[i];
      SuffixIdsDiffer(q, k, i);
      if EndsWithInterval(fired) {
        assert fired[k - 1] == q[k - 1] && i != k - 1;
        assert x in q[k..] || x.id == q[k - 1].id;
      }
    }
  }

  /** If the timer at `k` is not due, no timer from `k` on is due. */
  lemma SuffixNotDue(q: seq<Timer>, k: nat, now: int)
    requires Sorted(q) && k <= |q| && (k == |q| || q[k].runAt > now)
    ensures forall t :: t in q[k..] ==> t.runAt > now
  {
    forall t | t in q[k..] ensures t.runAt > now {
      var j :| 0 <= j < |q[k..]| && q[k..][j] == t;
      assert q[k + j] == t;
      assert j == 0 || NotAfter(q[k], q[k + j]);
    }
  }

  /** Unpacks `Tick` into the firing loop it runs. */
  lemma TickRunsDrain(s: State, time: Option<int>)
    ensures var r := Tick(s, time); var d := Drain(r.state.now, s.queue);
      r.fired == d.fired && r.state.queue == d.queue
  {
  }

  /** Timers fire in strictly ascending (runAt, id) order, and each one was
      due at the advanced time. */
  lemma TickFiresInOrder(s: State, time: Option<int>)
    requires Valid(s)
    ensures var r := Tick(s, time);
      && (forall i, j :: 0 <= i < j < |r.fired| ==> Before(r.fired[i], r.fired[j]))
      && (forall t :: t in r.fired ==> t.runAt <= r.state.now)
  {
    var r := Tick(s, time);
    TickRunsDrain(s, time);
    var q := s.queue;
    forall i, j | 0 <= i < j < |r.fired| ensures Before(r.fired[i], r.fired[j]) {
      assert r.fired[i] == q[i] && r.fired[j] == q[j];
      assert NotAfter(q[i], q[j]) && q[i].id != q[j].id;
    }
    forall t | t in r.fired ensures t.runAt <= r.state.now {
      var i :| 0 <= i < |r.fired| && r.fired[i] == t;
    }
  }

  /** When no interval timer fired, the loop ran until nothing due was
      left: the queue is exactly the timers that did not fire, and every
      one of them is due strictly after the new `now`. */
  lemma TickLeavesNothingDue(s: State, time: Option<int>)
    requires Valid(s)
    ensures var r := Tick(s, time);
      !EndsWithInterval(r.fired) ==>
        && s.queue == r.fired + r.state.queue
        && forall t :: t in r.state.queue ==> t.runAt > r.state.now
  {
    var r := Tick(s, time);
    TickRunsDrain(s, time);
    var q := s.queue;
    var k := |r.fired|;
    DrainRemaining(r.state.now, q);
    if !EndsWithInterval(r.fired) {
      assert q == q[..k] + q[k..];
      SuffixNotDue(q, k, r.state.now);
    }
  }

  /** At most one interval timer fires per call, and only as the last
      firing: it is then back in the queue, same id and arguments, due one
      time unit later, and it is the only queued timer with that id. */
  lemma TickReschedulesOneInterval(s: State, time: Option<int>)
    requires Valid(s)
    ensures var r := Tick(s, time);
      && (forall i :: 0 <= i < |r.fired| && r.fired[i].interval ==> i == |r.fired| - 1)
      && (EndsWithInterval(r.fired) ==>
            var t := r.fired[|r.fired| - 1];
            var t' := Timer(t.id, t.runAt + 1, true, t.args);
            && t' in r.state.queue
            && forall x :: x in r.state.queue && x.id == t.id ==> x == t')
  {
    var r := Tick(s, time);
    TickRunsDrain(s, time);
    var q := s.queue;
    var k := |r.fired|;
    DrainRemaining(r.state.now, q);
    if EndsWithInterval(r.fired) {
      var t := r.fired[k - 1];
      assert t == q[k - 1];
      var t' := Reschedule(t);
      assert r.state.queue == Insert(q[k..], t');
      SuffixIdsDiffer(q, k, k - 1);
      assert forall x :: x in r.state.queue && x.id == t.id ==> x == t';
    }
  }

  /** A one-shot timer that fired is gone for good: no queued timer keeps
      its id. */
  lemma TickDropsFiredTimeouts(s: State, time: Option<int>)
    requires Valid(s)
    ensures var r := Tick(s, time);
      forall i, x :: 0 <= i < |r.fired| && !r.fired[i].interval && x in r.state.queue
        ==> x.id != r.fired[i].id
  {
    TickRunsDrain(s, time);
    DrainDropsFiredTimeouts(Tick(s, time).state.now, s.queue);
  }

  lemma DrainDropsFiredTimeouts(now: int, q: seq<Timer>)
    requires DistinctIds(q)
    ensures var d := Drain(now, q);
      forall i, x :: 0 <= i < |d.fired| && !d.fired[i].interval && x in d.queue
        ==> x.id != d.fired[i].id
  {
    DrainRemaining(now, q);
    var d := Drain(now, q);
    FiredIdsAbsent(q, d.fired, d.queue);
  }

  /** Timers that are not yet due are not touched: every queued timer due
      after the new `now` is still queued, unchanged. */
  lemma TickKeepsFutureTimers(s: State, time: Option<int>)
    ensures var r := Tick(s, time);
      forall t :: t in s.queue && t.runAt > r.state.now ==> t in r.state.queue
  {
    TickRunsDrain(s, time);
    DrainKeepsFutureTimers(Tick(s, time).state.now, s.queue);
  }

  lemma DrainKeepsFutureTimers(now: int, q: seq<Timer>)
    ensures var d := Drain(now, q);
      forall t :: t in q && t.runAt > now ==> t in d.queue
  {
    var d := Drain(now, q);
    var fired, k := d.fired, |d.fired|;
    DrainRemaining(now, q);
    forall i | 0 <= i < k ensures q[i].runAt <= now {
      assert fired[i] == q[i];
    }
    FutureInSuffix(q, k, now);
    if EndsWithInterval(fired) {
      assert d.queue == Insert(q[k..], Reschedule(fired[k - 1]));
    }
  }

  /** A lone due interval timer fires once per `tick`, however far the
      tick reaches past its due time, and comes back due one unit later,
      so any following tick of at least one unit fires it again. */
  lemma LoneIntervalFiresOncePerTick(s: State, time: int, time2: int)
    requires |s.queue| == 1 && s.queue[0].interval && s.queue[0].runAt <= s.now + time
    ensures var t := s.queue[0];
      var t' := Timer(t.id, t.runAt + 1, true, t.args);
      var r := Tick(s, Some(time));
      && r.fired == [t]
      && r.state.queue == [t']
      && (time2 >= 1 ==> Tick(r.state, Some(time2)).fired == [t'])
  {
    var t := s.queue[0];
    var t' := Reschedule(t);
    assert s.queue == [t];
    assert Drain(s.now + time, [t]) == Drained(Insert([], t'), [t]);
    var r := Tick(s, Some(time));
    assert r.state.queue == [t'];
    if time2 >= 1 {
      assert Drain(r.state.now + time2, [t']) == Drained(Insert([], Reschedule(t')), [t']);
    }
  }

  /** `reset` empties the queue and disables the clock; doing it again
      changes nothing. */
  lemma ResetIdempotent(s: State)
    ensures Reset(Reset(s)) == Reset(s)
    ensures Reset(s).queue == [] && !Reset(s).isEnabled
  {
  }

  /** After `reset`, a `tick` fires nothing and leaves the queue empty. */
  lemma TickAfterResetFiresNothing(s: State, time: Option<int>)
    ensures Tick(Reset(s), time).fired == []
    ensures Tick(Reset(s), time).state.queue == []
  {
  }
}
