/**
 The two ways of keeping waiters: `HRNQueue`'s heap and `SemaphoreQueue`'s list, behind one
 interface of pure functions. The classes are proved against these functions, and the
 interleaving model of module `Admission` is built from the same functions.
 */
module QueueDiscipline {
  import opened Wrappers
  import opened BinaryHeap

  datatype Discipline = Hrn | Fifo

  ghost predicate NoDup<T>(q: seq<T>) {
    forall i, j :: 0 <= i < j < |q| ==> q[i] != q[j]
  }

  function IndexOf<T(==)>(q: seq<T>, w: T): (i: nat)
    requires w in q
    ensures i < |q| && q[i] == w
    ensures forall j :: 0 <= j < i ==> q[j] != w
  {
    if q[0] == w then 0 else 1 + IndexOf(q[1..], w)
  }

  /** Adding a waiter: `heap.Push`, or append. */
  function Enq<T>(d: Discipline, q: seq<T>, key: T -> real, w: T): seq<T> {
    if d == Hrn then Push(q, key, w) else q + [w]
  }

  /** Taking the next waiter: `heap.Pop`, or the first of the list. */
  function Deq<T>(d: Discipline, q: seq<T>, key: T -> real): (r: (T, seq<T>))
    requires q != []
    ensures |r.1| == |q| - 1
  {
    if d == Hrn then Pop(q, key) else (q[0], q[1..])
  }

  /** Taking a given waiter out, wherever it is; nothing happens when it is not there. */
  function Del<T(==)>(d: Discipline, q: seq<T>, key: T -> real, w: T): seq<T> {
    if w !in q then q
    else
      var i := IndexOf(q, w);
      if d == Hrn then Remove(q, key, i) else q[..i] + q[i + 1..]
  }

  /** A whole `Release` without interference: skip completed waiters, stop at the first live one. */
  function Scan<T(==)>(d: Discipline, q: seq<T>, key: T -> real, done: set<T>): (r: (Option<T>, seq<T>))
    decreases |q|
  {
    if q == [] then (None, [])
    else
      var (w, rest) := Deq(d, q, key);
      if w in done then Scan(d, rest, key, done) else (Some(w), rest)
  }

  // ---------- The members of the queue after each operation ----------

  lemma NoDupByCount<T>(q: seq<T>)
    ensures NoDup(q) <==> forall x :: multiset(q)[x] <= 1
  {
    if NoDup(q) {
      forall x
        ensures multiset(q)[x] <= 1
      {
        CountOfDistinct(q, x);
      }
    } else {
      var i, j :| 0 <= i < j < |q| && q[i] == q[j];
      assert q == q[..i] + [q[i]] + q[i + 1..j] + [q[j]] + q[j + 1..];
      assert multiset(q)[q[i]] >= 2;
    }
  }

  lemma {:induction false} CountOfDistinct<T>(q: seq<T>, x: T)
    requires NoDup(q)
    ensures multiset(q)[x] <= 1
  {
    if q == [] {
    } else {
      assert q == [q[0]] + q[1..];
      CountOfDistinct(q[1..], x);
      assert x == q[0] ==> x !in q[1..];
    }
  }

  lemma OneLess<T>(q: seq<T>, r: seq<T>, w: T)
    requires multiset(q) == multiset(r) + multiset{w}
    ensures forall x :: x in r ==> x in q
    ensures forall x :: x in q && x != w ==> x in r
    ensures NoDup(q) ==> NoDup(r) && w !in r
  {
    assert forall x :: x in r <==> x in multiset(r);
    assert forall x :: x in q <==> x in multiset(q);
    NoDupByCount(q);
    NoDupByCount(r);
    assert NoDup(q) ==> multiset(q)[w] <= 1;
  }

  /** Enq adds `w` and nothing else. */
  lemma EnqAdds<T>(d: Discipline, q: seq<T>, key: T -> real, w: T)
    ensures multiset(Enq(d, q, key, w)) == multiset(q) + multiset{w}
    ensures forall x :: x in Enq(d, q, key, w) <==> x in q || x == w
    ensures NoDup(q) && w !in q ==> NoDup(Enq(d, q, key, w))
  {
    PushAdds(q, key, w);
    var r := Enq(d, q, key, w);
    assert multiset(r) == multiset(q) + multiset{w};
    assert forall x :: x in r <==> x in multiset(r);
    NoDupByCount(q);
    NoDupByCount(r);
  }

  /** Deq takes its result and nothing else. */
  lemma DeqTakes<T>(d: Discipline, q: seq<T>, key: T -> real)
    requires q != []
    ensures Deq(d, q, key).0 == q[0]
    ensures multiset(q) == multiset(Deq(d, q, key).1) + multiset{q[0]}
    ensures forall x :: x in Deq(d, q, key).1 ==> x in q
    ensures forall x :: x in q && x != q[0] ==> x in Deq(d, q, key).1
    ensures NoDup(q) ==> NoDup(Deq(d, q, key).1) && q[0] !in Deq(d, q, key).1
  {
    PopTakesRoot(q, key);
    assert q == [q[0]] + q[1..];
    OneLess(q, Deq(d, q, key).1, q[0]);
  }

  /** Del takes `w` and nothing else. */
  lemma DelTakes<T>(d: Discipline, q: seq<T>, key: T -> real, w: T)
    requires w in q
    ensures multiset(q) == multiset(Del(d, q, key, w)) + multiset{w}
    ensures forall x :: x in Del(d, q, key, w) ==> x in q
    ensures forall x :: x in q && x != w ==> x in Del(d, q, key, w)
    ensures NoDup(q) ==> NoDup(Del(d, q, key, w)) && w !in Del(d, q, key, w)
  {
    var i := IndexOf(q, w);
    RemoveTakesSlot(q, key, i);
    assert q == q[..i] + [q[i]] + q[i + 1..];
    OneLess(q, Del(d, q, key, w), w);
  }

  // ---------- A whole Release ----------

  /** Release loses no live waiter: what it drops was completed, and it reports none only if none is live. */
  lemma {:induction false} ScanDropsOnlyDone<T>(d: Discipline, q: seq<T>, key: T -> real, done: set<T>)
    ensures var (g, rest) := Scan(d, q, key, done);
            && (g == None ==> forall x :: x in q ==> x in done)
            && (g.Some? ==> g.value in q && g.value !in done)
            && (forall x :: x in rest ==> x in q)
            && (forall x :: x in q && x !in done ==> x in rest || g == Some(x))
    ensures NoDup(q) ==>
              var (g, rest) := Scan(d, q, key, done);
              NoDup(rest) && (g.Some? ==> g.value !in rest)
    decreases |q|
  {
    if q == [] {
    } else {
      DeqTakes(d, q, key);
      var (w, rest) := Deq(d, q, key);
      if w in done {
        ScanDropsOnlyDone(d, rest, key, done);
      }
    }
  }

  /** On a heap, Release grants a live waiter of greatest key and leaves a heap. */
  lemma {:induction false} ScanGrantsGreatest<T>(q: seq<T>, key: T -> real, done: set<T>)
    requires Ordered(q, key, |q|)
    ensures var (g, rest) := Scan(Hrn, q, key, done);
            && Ordered(rest, key, |rest|)
            && (g.Some? ==> forall x :: x in q && x !in done ==> key(x) <= key(g.value))
    decreases |q|
  {
    if q == [] {
    } else {
      PopTakesGreatest(q, key);
      DeqTakes(Hrn, q, key);
      var (w, rest) := Deq(Hrn, q, key);
      if w in done {
        ScanGrantsGreatest(rest, key, done);
      }
    }
  }

  /** On a list, Release grants the first live waiter and keeps exactly those behind it. */
  lemma {:induction false} ScanGrantsFirst<T>(q: seq<T>, key: T -> real, done: set<T>)
    ensures var (g, rest) := Scan(Fifo, q, key, done);
            g.Some? ==> exists i ::
                && 0 <= i < |q| && q[i] == g.value && rest == q[i + 1..]
                && forall j :: 0 <= j < i ==> q[j] in done
    decreases |q|
  {
    if q == [] {
    } else {
      if q[0] in done {
        ScanGrantsFirst(q[1..], key, done);
        var (g, rest) := Scan(Fifo, q[1..], key, done);
        if g.Some? {
          var i :| 0 <= i < |q[1..]| && q[1..][i] == g.value && rest == q[1..][i + 1..]
            && forall j :: 0 <= j < i ==> q[1..][j] in done;
          assert q[i + 1] == g.value && rest == q[i + 2..];
          assert forall j :: 0 <= j < i + 1 ==> q[j] in done by {
            assert forall j :: 0 < j < i + 1 ==> q[j] == q[1..][j - 1];
          }
        }
      } else {
        assert q[0] == Scan(Fifo, q, key, done).0.value;
      }
    }
  }
}
