/**
 `internal/queue/semaphore_queue.go`: the first-come-first-served queue, as objects updated in
 place. Priorities are ignored, so the key handed to the shared functions is the constant zero.
 */
module SemaphoreQueue {
  import opened Wrappers
  import opened QueueDiscipline

  class SimpleWaiter {
    var ch: seq<bool>
    var done: bool

    constructor ()
      ensures ch == [] && !done
    {
      ch, done := [], false;
    }

    ghost predicate Valid()
      reads this
    {
      |ch| <= 1 && (!done ==> ch == [])
    }

    method Complete(result: bool) returns (won: bool)
      requires Valid()
      modifies this
      ensures Valid() && done
      ensures won == !old(done)
      ensures ch == if won then [result] else old(ch)
    {
      if done {
        return false;
      }
      done := true;
      ch := ch + [result];
      return true;
    }
  }

  function NoKey(w: SimpleWaiter): real { 0.0 }

  class Queue {
    var waiters: seq<SimpleWaiter>
    var sem: nat
    const maxInflight: nat

    ghost predicate Valid()
      reads this, waiters
    {
      && sem <= maxInflight && NoDup(waiters)
      && forall w :: w in waiters ==> w.Valid()
    }

    ghost function Members(): set<SimpleWaiter>
      reads this
    {
      set w | w in waiters
    }

    ghost function Completed(): set<SimpleWaiter>
      reads this, waiters
    {
      set w | w in waiters && w.done
    }

    constructor (maxInflight: nat)
      ensures Valid() && waiters == [] && sem == this.maxInflight == maxInflight
    {
      this.maxInflight := maxInflight;
      sem, waiters := 0, [];
      new;
      for i := 0 to maxInflight
        invariant sem == i && waiters == []
      {
        sem := sem + 1;
      }
    }

    method TryAcquire() returns (ok: bool)
      requires Valid()
      modifies this`sem
      ensures Valid() && ok == (old(sem) > 0)
      ensures sem == if ok then old(sem) - 1 else old(sem)
    {
      ok := sem > 0;
      if ok {
        sem := sem - 1;
      }
    }

    method Enqueue() returns (w: SimpleWaiter)
      requires Valid()
      modifies this`waiters
      ensures Valid() && fresh(w) && !w.done && w.ch == []
      ensures waiters == Enq(Fifo, old(waiters), NoKey, w)
    {
      w := new SimpleWaiter();
      waiters := waiters + [w];
    }

    /** The scan deletes the first occurrence of its target and stops. */
    method RemoveWaiter(target: SimpleWaiter)
      requires Valid()
      modifies this`waiters
      ensures Valid()
      ensures waiters == Del(Fifo, old(waiters), NoKey, target)
    {
      if target in waiters {
        DelTakes(Fifo, waiters, NoKey, target);
      }
      for i := 0 to |waiters|
        invariant waiters == old(waiters)
        invariant target !in waiters[..i]
      {
        if waiters[i] == target {
          assert IndexOf(waiters, target) == i by {
            assert forall j :: 0 <= j < i ==> waiters[j] in waiters[..i];
          }
          waiters := waiters[..i] + waiters[i + 1..];
          return;
        }
      }
    }

    /** Timer or cancellation, undisturbed: refuse the waiter unless it already has its outcome. */
    method Expire(w: SimpleWaiter)
      requires Valid() && w.Valid()
      modifies this`waiters, w
      ensures Valid() && w.done
      ensures w.ch == if old(w.done) then old(w.ch) else [false]
      ensures waiters == if old(w.done) then old(waiters) else Del(Fifo, old(waiters), NoKey, w)
    {
      var won := w.Complete(false);
      if won {
        RemoveWaiter(w);
      }
    }

    method Release()
      requires Valid() && sem < maxInflight
      modifies this, Members()
      ensures Valid()
      ensures var (g, rest) := Scan(Fifo, old(waiters), NoKey, old(Completed()));
              && waiters == rest
              && sem == old(sem) + (if g == None then 1 else 0)
              && (forall w :: w in old(waiters) && g != Some(w) ==> w.done == old(w.done) && w.ch == old(w.ch))
              && (g.Some? ==> g.value in old(waiters) && g.value.done && g.value.ch == [true])
    {
      while true
        invariant Valid() && sem == old(sem)
        invariant Members() <= old(Members())
        invariant Scan(Fifo, waiters, NoKey, old(Completed())) == Scan(Fifo, old(waiters), NoKey, old(Completed()))
        invariant forall w :: w in old(waiters) ==> w.done == old(w.done) && w.ch == old(w.ch)
        decreases |waiters|
      {
        if |waiters| == 0 {
          sem := sem + 1;
          return;
        }
        var w := waiters[0];
        DeqTakes(Fifo, waiters, NoKey);
        assert w in Members();
        waiters := waiters[1..];
        var won := w.Complete(true);
        if won {
          return;
        }
      }
    }
  }
}
