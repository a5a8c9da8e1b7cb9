/** The pending-timer record and the comparator that orders the queue of
    pending timers: due time first, creation id as the tie-break. */
module TimerOrder {
  import opened JsValues

  /** One pending timer. The callback itself is not kept: firing a timer is
      recorded by logging this record, whose `id` and `args` identify the
      call that would have been made. `interval` is the boolean flag the
      source stores; the delay of an interval timer is not stored. */
  datatype Timer = Timer(id: int, runAt: int, interval: bool, args: seq<Value>)

  /** `compareTimersLists`: the difference of the due times, or, when that
      is zero (falsy), the difference of the ids. */
  function Compare(a: Timer, b: Timer): (c: int)
    ensures c < 0 <==> a.runAt < b.runAt || (a.runAt == b.runAt && a.id < b.id)
    ensures c > 0 <==> a.runAt > b.runAt || (a.runAt == b.runAt && a.id > b.id)
    ensures c == 0 <==> a.runAt == b.runAt && a.id == b.id
  {
    var byRunAt := a.runAt - b.runAt;
    if byRunAt != 0 then byRunAt else a.id - b.id
  }

  /** `a` is dequeued strictly before `b`. */
  predicate Before(a: Timer, b: Timer) {
    Compare(a, b) < 0
  }

  /** `a` is not dequeued after `b`. */
  predicate NotAfter(a: Timer, b: Timer) {
    Compare(a, b) <= 0
  }

  /** Swapping the operands negates the comparison. */
  lemma CompareAntisymmetric(a: Timer, b: Timer)
    ensures Compare(a, b) == -Compare(b, a)
  {
  }

  /** Ids are unique, so two different timers never compare equal: exactly
      one of them comes first. */
  lemma CompareTotalOnDistinctIds(a: Timer, b: Timer)
    requires a.id != b.id
    ensures Compare(a, b) != 0
    ensures Before(a, b) <==> !Before(b, a)
  {
  }

  /** The order is transitive, strictly and non-strictly. */
  lemma CompareTransitive(a: Timer, b: Timer, c: Timer)
    ensures NotAfter(a, b) && NotAfter(b, c) ==> NotAfter(a, c)
    ensures Before(a, b) && NotAfter(b, c) ==> Before(a, c)
    ensures NotAfter(a, b) && Before(b, c) ==> Before(a, c)
  {
  }
}
