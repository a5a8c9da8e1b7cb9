/** The priority queue of pending timers, abstracted as a sequence kept in
    comparator order. Its internals (a binary heap with position
    bookkeeping) are not part of this model; only the three operations the
    scheduler uses are: `peek`, `shift` and `insert`. */
module TimerQueue {
  import opened JsValues
  import opened TimerOrder

  /** Every timer is not after any timer behind it. */
  predicate Sorted(q: seq<Timer>) {
    forall i, j :: 0 <= i < j < |q| ==> NotAfter(q[i], q[j])
  }

  /** No id occurs twice. */
  predicate DistinctIds(q: seq<Timer>) {
    forall i, j :: 0 <= i < j < |q| ==> q[i].id != q[j].id
  }

  /** The id does not occur in the queue. */
  predicate FreshId(q: seq<Timer>, id: int) {
    forall t :: t in q ==> t.id != id
  }

  /** The head of the queue, or nothing when it is empty. In a sorted
      queue the head is not after any queued timer (HeadFirst). */
  function Peek(q: seq<Timer>): (r: Option<Timer>)
    ensures r.None? <==> |q| == 0
    ensures r.Some? ==> r.value == q[0]
  {
    if |q| == 0 then None else Some(q[0])
  }

  /** Drops the head; on an empty queue nothing changes. What remains is
      exactly the other timers, and order and unique ids survive
      (ShiftKeepsOrder). */
  function Shift(q: seq<Timer>): (r: seq<Timer>)
    ensures |q| > 0 ==> q == [q[0]] + r
    ensures |q| == 0 ==> r == []
  {
    if |q| == 0 then [] else q[1..]
  }

  /** Shifting removes one copy of the head and nothing else, and keeps a
      sorted queue with unique ids sorted with unique ids. */
  lemma ShiftKeepsOrder(q: seq<Timer>)
    ensures |q| > 0 ==> multiset(Shift(q)) == multiset(q) - multiset{q[0]}
    ensures Sorted(q) ==> Sorted(Shift(q))
    ensures DistinctIds(q) ==> DistinctIds(Shift(q))
  {
    if |q| > 0 {
      TailMultiset(q);
      if Sorted(q) { TailSorted(q); }
      if DistinctIds(q) { TailDistinct(q); }
    }
  }

  /** Sorted insert: `t` goes in front of the first timer that is strictly
      after it. The queue keeps exactly its old timers plus `t`; order and
      id uniqueness are kept too (InsertSorted, InsertDistinct). */
  function Insert(q: seq<Timer>, t: Timer): (r: seq<Timer>)
    ensures |r| == |q| + 1
    ensures multiset(r) == multiset(q) + multiset{t}
    ensures forall x :: x in r <==> x in q || x == t
    decreases |q|
  {
    if |q| == 0 then [t]
    else if Before(t, q[0]) then [t] + q
    else
      var rest := Insert(q[1..], t);
      assert q == [q[0]] + q[1..];
      [q[0]] + rest
  }

  /** Inserting into a sorted queue leaves it sorted. */
  lemma {:induction false} InsertSorted(q: seq<Timer>, t: Timer)
    ensures Sorted(q) ==> Sorted(Insert(q, t))
    decreases |q|
  {
    if Sorted(q) {
      if |q| > 0 && !Before(t, q[0]) {
        var rest := Insert(q[1..], t);
        assert Sorted(q[1..]) by {
          forall i, j | 0 <= i < j < |q[1..]| ensures NotAfter(q[1..][i], q[1..][j]) {
            assert q[1..][i] == q[i + 1] && q[1..][j] == q[j + 1];
          }
        }
        InsertSorted(q[1..], t);
        var r := [q[0]] + rest;
        assert r == Insert(q, t);
        forall x | x in rest ensures NotAfter(q[0], x) {
          if x != t {
            assert x in q[1..];
            var k :| 0 <= k < |q[1..]| && q[1..][k] == x;
            assert q[k + 1] == x;
          }
        }
        forall i, j | 0 <= i < j < |r| ensures NotAfter(r[i], r[j]) {
          if i == 0 {
            assert r[j] == rest[j - 1];
            assert r[j] in rest;
          } else {
            assert r[i] == rest[i - 1] && r[j] == rest[j - 1];
          }
        }
      } else if |q| > 0 {
        var r := [t] + q;
        assert r == Insert(q, t);
        forall i, j | 0 <= i < j < |r| ensures NotAfter(r[i], r[j]) {
          if i == 0 {
            assert r[j] == q[j - 1];
            CompareTransitive(t, q[0], q[j - 1]);
          } else {
            assert r[i] == q[i - 1] && r[j] == q[j - 1];
          }
        }
      }
    }
  }

  /** Inserting a timer whose id is not queued keeps ids unique. */
  lemma {:induction false} InsertDistinct(q: seq<Timer>, t: Timer)
    ensures DistinctIds(q) && FreshId(q, t.id) ==> DistinctIds(Insert(q, t))
    decreases |q|
  {
    if DistinctIds(q) && FreshId(q, t.id) {
      if |q| > 0 && !Before(t, q[0]) {
        var rest := Insert(q[1..], t);
        assert DistinctIds(q[1..]) by {
          forall i, j | 0 <= i < j < |q[1..]| ensures q[1..][i].id != q[1..][j].id {
            assert q[1..][i] == q[i + 1] && q[1..][j] == q[j + 1];
          }
        }
        InsertDistinct(q[1..], t);
        var r := [q[0]] + rest;
        assert r == Insert(q, t);
        forall x | x in rest ensures x.id != q[0].id {
          if x != t {
            assert x in q[1..];
            var k :| 0 <= k < |q[1..]| && q[1..][k] == x;
            assert q[k + 1] == x;
          }
        }
        forall i, j | 0 <= i < j < |r| ensures r[i].id != r[j].id {
          if i == 0 {
            assert r[j] == rest[j - 1];
            assert r[j] in rest;
          } else {
            assert r[i] == rest[i - 1] && r[j] == rest[j - 1];
          }
        }
      } else if |q| > 0 {
        var r := [t] + q;
        assert r == Insert(q, t);
        forall i, j | 0 <= i < j < |r| ensures r[i].id != r[j].id {
          if i == 0 {
            assert r[j] == q[j - 1];
            assert r[j] in q;
          } else {
            assert r[i] == q[i - 1] && r[j] == q[j - 1];
          }
        }
      }
    }
  }

  /** The head of a sorted queue is not after any queued timer. */
  lemma HeadFirst(q: seq<Timer>, x: Timer)
    requires Sorted(q) && x in q
    ensures NotAfter(q[0], x)
  {
    var k :| 0 <= k < |q| && q[k] == x;
    if k > 0 {
      assert NotAfter(q[0], q[k]);
    }
  }

  /** The tail of a queue with unique ids has unique ids. */
  lemma TailDistinct(q: seq<Timer>)
    requires |q| > 0 && DistinctIds(q)
    ensures DistinctIds(q[1..])
  {
    forall i, j | 0 <= i < j < |q[1..]| ensures q[1..][i].id != q[1..][j].id {
      assert q[1..][i] == q[i + 1] && q[1..][j] == q[j + 1];
    }
  }

  /** The tail of a sorted queue is sorted. */
  lemma TailSorted(q: seq<Timer>)
    requires |q| > 0 && Sorted(q)
    ensures Sorted(q[1..])
  {
    forall i, j | 0 <= i < j < |q[1..]| ensures NotAfter(q[1..][i], q[1..][j]) {
      assert q[1..][i] == q[i + 1] && q[1..][j] == q[j + 1];
    }
  }

  /** Dropping the head removes exactly one copy of it. */
  lemma TailMultiset(q: seq<Timer>)
    requires |q| > 0
    ensures multiset(q[1..]) == multiset(q) - multiset{q[0]}
  {
    assert q == [q[0]] + q[1..];
  }

  /** A sorted queue with unique ids is determined by its contents: the
      sequence stands for the heap without fixing its layout, because any
      two sorted arrangements of the same timers coincide. */
  lemma {:induction false} SortedUnique(a: seq<Timer>, b: seq<Timer>)
    requires Sorted(a) && Sorted(b) && DistinctIds(a)
    requires multiset(a) == multiset(b)
    ensures a == b
    decreases |a|
  {
    assert |a| == |multiset(a)| == |multiset(b)| == |b|;
    if |a| > 0 {
      assert a[0] in multiset(b) && b[0] in multiset(a);
      HeadFirst(b, a[0]);
      HeadFirst(a, b[0]);
      var j :| 0 <= j < |a| && a[j] == b[0];
      assert a[j].id == a[0].id;
      assert j == 0;
      assert a[0] == b[0];
      TailMultiset(a);
      TailMultiset(b);
      TailSorted(a);
      TailSorted(b);
      TailDistinct(a);
      SortedUnique(a[1..], b[1..]);
    }
  }
}
