/**
 `internal/queue/hrn_queue.go`: the waiter, its heap and the queue, as objects updated in place.
 Each method of `HRNQueue` is one region that the source runs under the mutex or as one channel
 operation, except `Release`, which is the whole retry loop with nothing interleaved. Module
 `Admission` interleaves the regions.
 */
module HrnQueue {
  import opened Wrappers
  import opened Ageing
  import opened BinaryHeap
  import opened QueueDiscipline

  class Waiter {
    const clientID: string
    const priority: real
    const enqueuedAt: real
    var ch: seq<bool>  // a channel with room for one value
    var index: int
    var done: bool

    constructor (clientID: string, priority: real, enqueuedAt: real)
      ensures this.clientID == clientID && this.priority == priority && this.enqueuedAt == enqueuedAt
      ensures ch == [] && index == -1 && !done
    {
      this.clientID, this.priority, this.enqueuedAt := clientID, priority, enqueuedAt;
      ch, index, done := [], -1, false;
    }

    /** No value is sent before completion, and never a second one. */
    ghost predicate Valid()
      reads this
    {
      |ch| <= 1 && (!done ==> ch == [])
    }

    /** Compare-and-swap, then a send that finds room: only the first caller sends its value. */
    method Complete(result: bool) returns (won: bool)
      requires Valid()
      modifies this`done, this`ch
      ensures Valid() && done
      ensures won == !old(done)
      ensures ch == if won then [result] else old(ch)
    {
      if done {
        return false;
      }
      done := true;
      ch := ch + [result];
      return true;
    }

    function EffectivePriority(now: real): real {
      Effective(priority, enqueuedAt, now)
    }
  }

  function RankOf(w: Waiter): real {
    Rank(w.priority, w.enqueuedAt)
  }

  class WaitHeap {
    var items: seq<Waiter>

    constructor ()
      ensures items == []
    {
      items := [];
    }

    ghost function Members(): set<Waiter>
      reads this
    {
      set w | w in items
    }

    /** Every waiter knows its own slot; hence no waiter occupies two. */
    ghost predicate Indexed()
      reads this, items
    {
      forall i :: 0 <= i < |items| ==> items[i].index == i
    }

    ghost predicate Valid()
      reads this, items
    {
      Indexed() && Ordered(items, RankOf, |items|)
    }

    lemma IndexedIsDistinct()
      requires Indexed()
      ensures NoDup(items)
    {
      forall i, j | 0 <= i < j < |items|
        ensures items[i] != items[j]
      {
        assert items[i].index == i && items[j].index == j;
      }
    }

    lemma QueuedHasIndex()
      requires Indexed()
      ensures forall w :: w in Members() ==> 0 <= w.index < |items| && items[w.index] == w
    {
    }

    /** Whatever the clock shows, the answer is the order of the ranks. */
    method Less(i: nat, j: nat) returns (less: bool)
      requires i < |items| && j < |items|
      ensures less == (RankOf(items[i]) > RankOf(items[j]))
    {
      var now: real := *;
      less := items[i].EffectivePriority(now) > items[j].EffectivePriority(now);
      ComparisonIgnoresClock(items[i].priority, items[i].enqueuedAt, items[j].priority, items[j].enqueuedAt, now);
    }

    method SwapSlots(i: nat, j: nat)
      requires i < |items| && j < |items| && Indexed()
      modifies this, Members()`index
      ensures items == Swap(old(items), i, j) && Indexed()
      ensures Members() == old(Members())
    {
      IndexedIsDistinct();
      SwapMembers(items, i, j);
      items := items[i := items[j]][j := items[i]];
      items[i].index := i;
      items[j].index := j;
    }

    method UpFrom(start: nat)
      requires start < |items| && Indexed()
      modifies this, Members()`index
      ensures items == Up(old(items), RankOf, start) && Indexed()
      ensures Members() == old(Members())
    {
      var j: nat := start;
      while true
        invariant j < |items| && Indexed()
        invariant Up(items, RankOf, j) == Up(old(items), RankOf, start)
        invariant Members() == old(Members())
        decreases j
      {
        var i := if j == 0 then 0 else (j - 1) / 2;
        if i == j {
          break;
        }
        var less := Less(j, i);
        if !less {
          break;
        }
        SwapSlots(i, j);
        j := i;
      }
    }

    /** The child of slot `i` that outranks the other, the left one on a tie. */
    method PickChild(i: nat, n: nat) returns (j: nat)
      requires 2 * i + 1 < n <= |items|
      ensures j == GreaterChild(items, RankOf, i, n)
    {
      j := 2 * i + 1;
      if j + 1 < n {
        var right := Less(j + 1, j);
        if right {
          j := j + 1;
        }
      }
    }

    method DownFrom(start: nat, n: nat) returns (moved: bool)
      requires n <= |items| && Indexed()
      modifies this, Members()`index
      ensures (items, moved) == (Down(old(items), RankOf, start, n).0, Down(old(items), RankOf, start, n).1 > start)
      ensures Indexed()
      ensures Members() == old(Members())
    {
      var i: nat := start;
      while true
        invariant start <= i && n <= |items| && Indexed()
        invariant Down(items, RankOf, i, n) == Down(old(items), RankOf, start, n)
        invariant Members() == old(Members())
        decreases n - i
      {
        if 2 * i + 1 >= n {
          break;
        }
        var j := PickChild(i, n);
        var less := Less(j, i);
        if !less {
          break;
        }
        SwapSlots(i, j);
        i := j;
      }
      moved := i > start;
    }

    /** `heap.Push`. */
    method PushWaiter(w: Waiter)
      requires Valid() && w !in items
      modifies this, Members()`index, w`index
      ensures items == Push(old(items), RankOf, w) && Valid()
      ensures Members() == old(Members()) + {w}
    {
      PushKeepsHeap(items, RankOf, w);
      w.index := |items|;
      items := items + [w];
      UpFrom(|items| - 1);
    }

    /** `heap.Pop`. */
    method PopWaiter() returns (w: Waiter)
      requires Valid() && items != []
      modifies this, Members()`index
      ensures (w, items) == Pop(old(items), RankOf) && Valid()
      ensures w in old(Members()) && w.index == -1
      ensures Members() == old(Members()) - {w}
    {
      ghost var before := items;
      PopTakesGreatest(items, RankOf);
      IndexedIsDistinct();
      DeqTakes(Hrn, items, RankOf);
      var n := |items| - 1;
      SwapSlots(0, n);
      var moved := DownFrom(0, n);
      w := DropLast();
      assert (w, items) == Pop(before, RankOf) == Deq(Hrn, before, RankOf);
    }

    /** Exchange slot `i` with the last one and repair the heap in front of it. */
    method SwapMoved(i: nat)
      requires Indexed() && i < |items| - 1
      modifies this, Members()`index
      ensures items == Moved(Swap(old(items), i, |old(items)| - 1), RankOf, i, |old(items)| - 1) && Indexed()
      ensures Members() == old(Members())
    {
      var n := |items| - 1;
      SwapSlots(i, n);
      ghost var swapped := items;
      var moved := DownFrom(i, n);
      if !moved {
        UpFrom(i);
      }
      assert items == Moved(swapped, RankOf, i, n);
    }

    lemma RemovalFacts(i: nat)
      requires Valid() && i < |items|
      ensures Ordered(Remove(items, RankOf, i), RankOf, |items| - 1)
      ensures (set x | x in Remove(items, RankOf, i)) == Members() - {items[i]}
    {
      RemoveKeepsHeap(items, RankOf, i);
      IndexedIsDistinct();
      RemoveTakesSlot(items, RankOf, i);
      OneLess(items, Remove(items, RankOf, i), items[i]);
    }

    /** `heap.Remove` at the slot a waiter says it occupies takes that waiter. */
    method RemoveWaiter(i: nat)
      requires Valid() && i < |items|
      modifies this, Members()`index
      ensures items == Remove(old(items), RankOf, i) && Valid()
      ensures old(items[i]).index == -1
      ensures Members() == old(Members()) - {old(items[i])}
    {
      ghost var before := items;
      ghost var target := items[i];
      RemovalFacts(i);
      if |items| - 1 != i {
        assert Moved(Swap(before, i, |before| - 1), RankOf, i, |before| - 1)[|before| - 1] == target by {
          MovedKeepsLast(before, RankOf, i);
        }
        SwapMoved(i);
      }
      var w := DropLast();
    }

    /** `waitHeap.Pop`: shrink the slice and clear the removed waiter's index. */
    method DropLast() returns (w: Waiter)
      requires items != [] && Indexed()
      modifies this, Members()`index
      ensures w == old(items)[|old(items)| - 1] && items == old(items)[..|old(items)| - 1]
      ensures Indexed() && w.index == -1
    {
      IndexedIsDistinct();
      var n := |items|;
      w := items[n - 1];
      w.index := -1;
      items := items[..n - 1];
    }
  }

  class HRNQueue {
    const heap: WaitHeap
    const maxInflight: nat
    var sem: nat  // permits lying in the channel
    ghost var waiters: set<Waiter>  // every waiter this queue has made

    /**
     Back pointers: a waiter's index is its slot while it is queued and -1 otherwise. Queued or
     not, it has been sent at most one value.
     */
    ghost predicate Valid()
      reads this, heap, heap.items, waiters
    {
      && heap.Valid() && heap.Members() <= waiters && sem <= maxInflight
      && forall w :: w in waiters ==> w.Valid() && (w.index == -1 <==> w !in heap.items)
    }

    ghost function Completed(): set<Waiter>
      reads this, waiters
    {
      set w | w in waiters && w.done
    }

    constructor (maxInflight: nat)
      ensures Valid() && fresh(heap)
      ensures heap.items == [] && waiters == {} && sem == this.maxInflight == maxInflight
    {
      this.maxInflight := maxInflight;
      heap := new WaitHeap();
      sem, waiters := 0, {};
      new;
      for i := 0 to maxInflight
        invariant sem == i && heap.items == [] && waiters == {}
      {
        sem := sem + 1;
      }
    }

    /** The non-blocking receive that opens `Acquire`. */
    method TryAcquire() returns (ok: bool)
      requires Valid()
      modifies this`sem
      ensures Valid() && ok == (old(sem) > 0)
      ensures sem == if ok then old(sem) - 1 else old(sem)
    {
      ok := sem > 0;
      if ok {
        sem := sem - 1;
      }
    }

    /** A new waiter, pushed under the mutex. */
    method Enqueue(clientID: string, priority: real, now: real) returns (w: Waiter)
      requires Valid()
      modifies this`waiters, heap, heap.Members()`index
      ensures Valid() && fresh(w) && waiters == old(waiters) + {w}
      ensures w.clientID == clientID && w.priority == priority && w.enqueuedAt == now && !w.done && w.ch == []
      ensures heap.items == Enq(Hrn, old(heap.items), RankOf, w)
    {
      w := new Waiter(clientID, priority, now);
      heap.PushWaiter(w);
      waiters := waiters + {w};
    }

    /** The locked region of the timeout goroutine: the waiter leaves if it is still queued. */
    method RemoveIfQueued(w: Waiter)
      requires Valid() && w in waiters
      modifies heap, heap.Members()`index
      ensures Valid() && w.index == -1
      ensures heap.items == Del(Hrn, old(heap.items), RankOf, w)
    {
      heap.QueuedHasIndex();
      if w.index >= 0 {
        heap.IndexedIsDistinct();
        assert IndexOf(heap.items, w) == w.index;
        heap.RemoveWaiter(w.index);
        heap.QueuedHasIndex();
      }
    }

    /** Timer or cancellation, undisturbed: refuse the waiter unless it already has its outcome. */
    method Expire(w: Waiter)
      requires Valid() && w in waiters
      modifies w, heap, heap.Members()`index
      ensures Valid() && w.done
      ensures w.ch == if old(w.done) then old(w.ch) else [false]
      ensures heap.items == if old(w.done) then old(heap.items) else Del(Hrn, old(heap.items), RankOf, w)
    {
      var won := w.Complete(false);
      if won {
        RemoveIfQueued(w);
      }
    }

    /** The locked region of `Release`: the next waiter, if there is one. */
    method PopLocked() returns (w: Waiter?)
      requires Valid()
      modifies heap, heap.Members()`index
      ensures Valid()
      ensures w == null <==> old(heap.items) == []
      ensures w == null ==> heap.items == []
      ensures w != null ==> w in waiters && (w, heap.items) == Deq(Hrn, old(heap.items), RankOf)
    {
      if |heap.items| == 0 {
        return null;
      }
      heap.QueuedHasIndex();
      w := heap.PopWaiter();
      heap.QueuedHasIndex();
    }

    /** One turn of the loop in `Release`: pop the next waiter and offer it the permit. */
    method GrantNext() returns (w: Waiter?, won: bool)
      requires Valid()
      modifies heap, waiters
      ensures Valid()
      ensures w == null <==> old(heap.items) == []
      ensures w == null ==> heap.items == []
      ensures w != null ==> w in waiters && (w, heap.items) == Deq(Hrn, old(heap.items), RankOf)
      ensures w != null ==> won == !old(w.done) && w.done && w.ch == if won then [true] else old(w.ch)
      ensures forall x :: x in waiters && x != w ==> x.done == old(x.done) && x.ch == old(x.ch)
    {
      w := PopLocked();
      won := false;
      if w != null {
        won := w.Complete(true);
      }
    }

    /** `Release`, undisturbed, by a caller that holds a permit. */
    method Release()
      requires Valid() && sem < maxInflight
      modifies this`sem, heap, waiters
      ensures Valid()
      ensures var (g, rest) := Scan(Hrn, old(heap.items), RankOf, old(Completed()));
              && heap.items == rest
              && sem == old(sem) + (if g == None then 1 else 0)
              && (forall w :: w in waiters && g != Some(w) ==> w.done == old(w.done) && w.ch == old(w.ch))
              && (g.Some? ==> g.value in waiters && g.value.done && g.value.ch == [true])
    {
      while true
        invariant Valid() && sem == old(sem)
        invariant Scan(Hrn, heap.items, RankOf, old(Completed()))
               == Scan(Hrn, old(heap.items), RankOf, old(Completed()))
        invariant forall w :: w in waiters ==> w.done == old(w.done) && w.ch == old(w.ch)
        decreases |heap.items|
      {
        var w, won := GrantNext();
        if w == null {
          sem := sem + 1;
          return;
        }
        if won {
          return;
        }
      }
    }
  }
}
