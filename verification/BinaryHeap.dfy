/**
 The array algorithms of Go's `container/heap`, on sequences. The queue's `Less(i, j)` is
 "element i has the greater key", so the greatest key sits at the root.

 Heap order is an invariant of the array alone: nothing here mentions time. Module `Ageing`
 shows why a comparison made at any instant may be replaced by a comparison of fixed keys.
 */
module BinaryHeap {

  /** The parent slot. Go divides toward zero, so the root's parent is the root. */
  function Parent(j: nat): (i: nat)
    ensures j == 0 ==> i == 0
    ensures j > 0 ==> i < j && (j == 2 * i + 1 || j == 2 * i + 2)
  {
    if j == 0 then 0 else (j - 1) / 2
  }

  function Swap<T>(s: seq<T>, i: nat, j: nat): (r: seq<T>)
    requires i < |s| && j < |s|
    ensures |r| == |s|
  {
    s[i := s[j]][j := s[i]]
  }

  /** `up`: the element at `j` climbs while its key exceeds its parent's. */
  function Up<T>(s: seq<T>, key: T -> real, j: nat): (r: seq<T>)
    requires j < |s|
    ensures |r| == |s|
    decreases j
  {
    var i := Parent(j);
    if i == j || key(s[j]) <= key(s[i]) then s else Up(Swap(s, i, j), key, i)
  }

  /** The child that `down` compares with: the left one unless the right one is greater. */
  function GreaterChild<T>(s: seq<T>, key: T -> real, i: nat, n: nat): (j: nat)
    requires 2 * i + 1 < n <= |s|
    ensures i < j < n && Parent(j) == i
  {
    if 2 * i + 2 < n && key(s[2 * i + 2]) > key(s[2 * i + 1]) then 2 * i + 2 else 2 * i + 1
  }

  /** `down` within the first `n` slots: the new array and the slot where the element stops. */
  function Down<T>(s: seq<T>, key: T -> real, i: nat, n: nat): (r: (seq<T>, nat))
    requires n <= |s|
    ensures |r.0| == |s|
    ensures r.1 >= i && (r.1 == i ==> r.0 == s)
    decreases n - i
  {
    if 2 * i + 1 >= n then (s, i)
    else
      var j := GreaterChild(s, key, i, n);
      if key(s[j]) <= key(s[i]) then (s, i) else Down(Swap(s, i, j), key, j, n)
  }

  /** `heap.Push`. */
  function Push<T>(s: seq<T>, key: T -> real, x: T): (r: seq<T>)
    ensures |r| == |s| + 1
  {
    Up(s + [x], key, |s|)
  }

  /** `heap.Pop`: the removed element and the remaining array. */
  function Pop<T>(s: seq<T>, key: T -> real): (r: (T, seq<T>))
    requires s != []
    ensures |r.1| == |s| - 1
  {
    var n := |s| - 1;
    var t := Down(Swap(s, 0, n), key, 0, n).0;
    (t[n], t[..n])
  }

  /** `heap.Remove` at slot `i`: what is left. */
  function Remove<T>(s: seq<T>, key: T -> real, i: nat): (r: seq<T>)
    requires i < |s|
    ensures |r| == |s| - 1
  {
    var n := |s| - 1;
    if n == i then s[..n] else Moved(Swap(s, i, n), key, i, n)[..n]
  }

  /** `if !down(h, i, n) { up(h, i) }`. */
  function Moved<T>(s: seq<T>, key: T -> real, i: nat, n: nat): (r: seq<T>)
    requires i < n <= |s|
    ensures |r| == |s|
  {
    var d := Down(s, key, i, n);
    if d.1 > i then d.0 else Up(d.0, key, i)
  }

  lemma SwapMembers<T>(s: seq<T>, i: nat, j: nat)
    requires i < |s| && j < |s|
    ensures forall x :: x in Swap(s, i, j) <==> x in s
  {
    var r := Swap(s, i, j);
    assert multiset(r) == multiset(s);
    assert forall x :: x in r <==> x in multiset(r);
  }

  /** `up` rearranges the first `j + 1` slots only. */
  lemma {:induction false} UpPermutes<T>(s: seq<T>, key: T -> real, j: nat)
    requires j < |s|
    ensures multiset(Up(s, key, j)) == multiset(s)
    ensures Up(s, key, j)[j + 1..] == s[j + 1..]
    decreases j
  {
    var i := Parent(j);
    if i != j && key(s[j]) > key(s[i]) {
      var t := Swap(s, i, j);
      UpPermutes(t, key, i);
      assert t[j + 1..] == s[j + 1..];
      assert Up(t, key, i)[j + 1..] == Up(t, key, i)[i + 1..][j - i..];
      assert t[j + 1..] == t[i + 1..][j - i..];
    }
  }

  /** `down` rearranges the first `n` slots only. */
  lemma {:induction false} DownPermutes<T>(s: seq<T>, key: T -> real, i: nat, n: nat)
    requires n <= |s|
    ensures multiset(Down(s, key, i, n).0) == multiset(s)
    ensures Down(s, key, i, n).0[n..] == s[n..]
    decreases n - i
  {
    if 2 * i + 1 < n {
      var j := GreaterChild(s, key, i, n);
      if key(s[j]) > key(s[i]) {
        var t := Swap(s, i, j);
        assert t[n..] == s[n..];
        DownPermutes(t, key, j, n);
      }
    }
  }

  lemma MovedPermutes<T>(s: seq<T>, key: T -> real, i: nat, n: nat)
    requires i < n <= |s|
    ensures multiset(Moved(s, key, i, n)) == multiset(s)
    ensures Moved(s, key, i, n)[n..] == s[n..]
  {
    DownPermutes(s, key, i, n);
    var d := Down(s, key, i, n).0;
    UpPermutes(d, key, i);
    assert Up(d, key, i)[n..] == Up(d, key, i)[i + 1..][n - i - 1..];
    assert d[n..] == d[i + 1..][n - i - 1..];
  }

  /** Slot `k` is in order with its parent. */
  ghost predicate Below<T>(s: seq<T>, key: T -> real, k: nat)
    requires k < |s|
  {
    key(s[k]) <= key(s[Parent(k)])
  }

  /** The first `n` slots form a heap. */
  ghost predicate Ordered<T>(s: seq<T>, key: T -> real, n: nat)
    requires n <= |s|
  {
    forall k: nat :: k < n ==> Below(s, key, k)
  }

  /** The children of slot `i` are in order with the parent of `i`. */
  ghost predicate Bypass<T>(s: seq<T>, key: T -> real, n: nat, i: nat)
    requires i < n <= |s|
  {
    forall k: nat :: 0 < k < n && Parent(k) == i && i > 0 ==> key(s[k]) <= key(s[Parent(i)])
  }

  /** A heap but for slot `i`, which may exceed its parent. */
  ghost predicate HighAt<T>(s: seq<T>, key: T -> real, n: nat, i: nat)
    requires i < n <= |s|
  {
    Bypass(s, key, n, i) && forall k: nat :: k < n && k != i ==> Below(s, key, k)
  }

  /** A heap but for slot `i`, which may be out of order with its parent and its children. */
  ghost predicate LooseAt<T>(s: seq<T>, key: T -> real, n: nat, i: nat)
    requires i < n <= |s|
  {
    Bypass(s, key, n, i) && forall k: nat :: k < n && k != i && Parent(k) != i ==> Below(s, key, k)
  }

  lemma {:induction false} UpRestores<T>(s: seq<T>, key: T -> real, j: nat, n: nat)
    requires j < n <= |s| && HighAt(s, key, n, j)
    ensures Ordered(Up(s, key, j), key, n)
    decreases j
  {
    var i := Parent(j);
    if i == j || key(s[j]) <= key(s[i]) {
      assert Below(s, key, j);
    } else {
      var t := Swap(s, i, j);
      assert Below(s, key, i);
      forall k: nat | k < n && k != i
        ensures Below(t, key, k)
      {
        assert k != j ==> Below(s, key, k);
      }
      forall k: nat | 0 < k < n && Parent(k) == i && i > 0
        ensures key(t[k]) <= key(t[Parent(i)])
      {
        assert k != j ==> Below(s, key, k);
      }
      UpRestores(t, key, i, n);
    }
  }

  /** Swapping the loose slot with its greater child moves the looseness to that child. */
  lemma SinkIsLoose<T>(s: seq<T>, key: T -> real, i: nat, j: nat, n: nat)
    requires 2 * i + 1 < n <= |s| && LooseAt(s, key, n, i)
    requires j == GreaterChild(s, key, i, n) && key(s[j]) > key(s[i])
    ensures LooseAt(Swap(s, i, j), key, n, j)
  {
    var t := Swap(s, i, j);
    forall k: nat | k < n && k != j && Parent(k) != j
      ensures Below(t, key, k)
    {
      if k == i {
        assert i > 0 ==> key(s[j]) <= key(s[Parent(i)]);
      } else if Parent(k) != i {
        assert Below(s, key, k);
      } else {
        assert key(s[k]) <= key(s[j]);
      }
    }
    forall k: nat | 0 < k < n && Parent(k) == j && j > 0
      ensures key(t[k]) <= key(t[Parent(j)])
    {
      assert Below(s, key, k);
    }
  }

  /** `down` either restores the heap, or moves nothing and leaves at most an excess over the parent. */
  lemma {:induction false} DownRestores<T>(s: seq<T>, key: T -> real, i: nat, n: nat)
    requires i < n <= |s| && LooseAt(s, key, n, i)
    ensures Down(s, key, i, n).1 == i ==> HighAt(s, key, n, i)
    ensures Down(s, key, i, n).1 > i ==> Ordered(Down(s, key, i, n).0, key, n)
    decreases n - i
  {
    if 2 * i + 1 < n {
      var j := GreaterChild(s, key, i, n);
      if key(s[j]) > key(s[i]) {
        var t := Swap(s, i, j);
        SinkIsLoose(s, key, i, j, n);
        DownRestores(t, key, j, n);
        assert Below(t, key, j);
      }
    }
  }

  /** A heap's root has the greatest key. */
  lemma {:induction false} RootIsGreatest<T>(s: seq<T>, key: T -> real, n: nat, k: nat)
    requires n <= |s| && Ordered(s, key, n) && k < n
    ensures key(s[k]) <= key(s[0])
    decreases k
  {
    if k == 0 {
    } else {
      assert Below(s, key, k);
      RootIsGreatest(s, key, n, Parent(k));
    }
  }

  /** Push keeps heap order. */
  lemma PushKeepsHeap<T>(s: seq<T>, key: T -> real, x: T)
    requires Ordered(s, key, |s|)
    ensures Ordered(Push(s, key, x), key, |s| + 1)
  {
    var t := s + [x];
    forall k: nat | k < |t| && k != |s|
      ensures Below(t, key, k)
    {
      assert Below(s, key, k);
    }
    UpRestores(t, key, |s|, |t|);
  }

  /** Push adds exactly `x`, whether or not the array is a heap. */
  lemma PushAdds<T>(s: seq<T>, key: T -> real, x: T)
    ensures multiset(Push(s, key, x)) == multiset(s) + multiset{x}
  {
    UpPermutes(s + [x], key, |s|);
  }

  /** Pop keeps heap order, and no remaining key exceeds the popped one. */
  lemma PopTakesGreatest<T>(s: seq<T>, key: T -> real)
    requires s != [] && Ordered(s, key, |s|)
    ensures Ordered(Pop(s, key).1, key, |s| - 1)
    ensures forall x :: x in s ==> key(x) <= key(Pop(s, key).0)
  {
    var n := |s| - 1;
    var t := Swap(s, 0, n);
    var d := Down(t, key, 0, n).0;
    if n > 0 {
      SwapOutIsLoose(s, key, 0);
      DownRestores(t, key, 0, n);
      assert Below(t, key, 0);
    }
    TakeKeepsHeap(d, key, n);
    PopTakesRoot(s, key);
    forall x | x in s
      ensures key(x) <= key(s[0])
    {
      var k :| 0 <= k < |s| && s[k] == x;
      RootIsGreatest(s, key, |s|, k);
    }
  }

  /** Pop takes the root and nothing else, whether or not the array is a heap. */
  lemma PopTakesRoot<T>(s: seq<T>, key: T -> real)
    requires s != []
    ensures Pop(s, key).0 == s[0]
    ensures multiset(s) == multiset(Pop(s, key).1) + multiset{s[0]}
  {
    var n := |s| - 1;
    var t := Swap(s, 0, n);
    DownPermutes(t, key, 0, n);
    var d := Down(t, key, 0, n).0;
    assert d[n] == d[n..][0] == t[n..][0] == s[0];
    assert d == d[..n] + [d[n]];
  }

  /** Remove at slot `i` keeps heap order. */
  lemma RemoveKeepsHeap<T>(s: seq<T>, key: T -> real, i: nat)
    requires i < |s| && Ordered(s, key, |s|)
    ensures Ordered(Remove(s, key, i), key, |s| - 1)
  {
    var n := |s| - 1;
    if n == i {
      TakeKeepsHeap(s, key, n);
    } else {
      assert Ordered(Moved(Swap(s, i, n), key, i, n)[..n], key, n) by {
        SwapOutIsLoose(s, key, i);
        MovedRestores(Swap(s, i, n), key, i, n);
      }
    }
  }

  /** The element swapped to the end stays there. */
  lemma MovedKeepsLast<T>(s: seq<T>, key: T -> real, i: nat)
    requires i < |s| - 1
    ensures var m := Moved(Swap(s, i, |s| - 1), key, i, |s| - 1);
            m[|s| - 1] == s[i] && multiset(m) == multiset(s)
  {
    var n := |s| - 1;
    var t := Swap(s, i, n);
    MovedPermutes(t, key, i, n);
    var m := Moved(t, key, i, n);
    assert m[n] == m[n..][0] == t[n..][0] == s[i];
  }

  /** `down` or else `up` repairs a heap with one loose slot. */
  lemma MovedRestores<T>(s: seq<T>, key: T -> real, i: nat, n: nat)
    requires i < n <= |s| && LooseAt(s, key, n, i)
    ensures Ordered(Moved(s, key, i, n)[..n], key, n)
  {
    DownRestores(s, key, i, n);
    if Down(s, key, i, n).1 == i {
      UpRestores(s, key, i, n);
    }
    TakeKeepsHeap(Moved(s, key, i, n), key, n);
  }

  /** Remove at slot `i` takes exactly `s[i]`, whether or not the array is a heap. */
  lemma RemoveTakesSlot<T>(s: seq<T>, key: T -> real, i: nat)
    requires i < |s|
    ensures multiset(s) == multiset(Remove(s, key, i)) + multiset{s[i]}
  {
    var n := |s| - 1;
    if n == i {
      assert s == s[..n] + [s[n]];
    } else {
      MovedKeepsLast(s, key, i);
      var m := Moved(Swap(s, i, n), key, i, n);
      assert m == m[..n] + [m[n]];
    }
  }

  lemma SwapOutIsLoose<T>(s: seq<T>, key: T -> real, i: nat)
    requires i < |s| - 1 && Ordered(s, key, |s|)
    ensures LooseAt(Swap(s, i, |s| - 1), key, |s| - 1, i)
  {
    var n := |s| - 1;
    var t := Swap(s, i, n);
    forall k: nat | k < n && k != i && Parent(k) != i
      ensures Below(t, key, k)
    {
      assert Below(s, key, k);
    }
    forall k: nat | 0 < k < n && Parent(k) == i && i > 0
      ensures key(t[k]) <= key(t[Parent(i)])
    {
      assert Below(s, key, k) && Below(s, key, i);
    }
  }

  lemma TakeKeepsHeap<T>(s: seq<T>, key: T -> real, n: nat)
    requires n <= |s| && Ordered(s, key, n)
    ensures Ordered(s[..n], key, n)
  {
    forall k: nat | k < n
      ensures Below(s[..n], key, k)
    {
      assert Below(s, key, k);
    }
  }

  // ---------- Ties ----------

  ghost predicate AllEqual<T>(s: seq<T>, key: T -> real) {
    forall i, j :: 0 <= i < |s| && 0 <= j < |s| ==> key(s[i]) == key(s[j])
  }

  /** Equal keys stay where they are: a push appends, and the last element fills the slot that is freed. */
  lemma TiesStay<T>(s: seq<T>, key: T -> real, x: T, i: nat)
    requires AllEqual(s + [x], key) && i < |s|
    ensures Push(s, key, x) == s + [x]
    ensures Pop(s, key) == (s[0], s[0 := s[|s| - 1]][..|s| - 1])
    ensures Remove(s, key, i) == s[i := s[|s| - 1]][..|s| - 1]
  {
    var n := |s| - 1;
    forall a, b | 0 <= a < |s| && 0 <= b < |s|
      ensures key(s[a]) == key(s[b])
    {
      assert s[a] == (s + [x])[a] && s[b] == (s + [x])[b];
    }
    assert Push(s, key, x) == s + [x] by {
      assert (s + [x])[Parent(|s|)] == s[Parent(|s|)] || |s| == 0;
    }
    EqualDown(Swap(s, 0, n), key, 0, n);
    if i < n {
      EqualDown(Swap(s, i, n), key, i, n);
    }
  }

  lemma EqualDown<T>(s: seq<T>, key: T -> real, i: nat, n: nat)
    requires i < |s| && n <= |s| && AllEqual(s, key)
    ensures Down(s, key, i, n) == (s, i) && Up(s, key, i) == s
  {
  }

  /** Of two children with equal keys the left one rises. */
  lemma LeftChildRises<T>(a: T, b: T, c: T, d: T, key: T -> real)
    requires key(b) == key(c) > key(d)
    ensures Pop([a, b, c, d], key) == (a, [b, d, c])
  {
    assert Swap([a, b, c, d], 0, 3) == [d, b, c, a];
    assert Swap([d, b, c, a], 0, 1) == [b, d, c, a];
    assert Down([b, d, c, a], key, 1, 3).0 == [b, d, c, a];
    assert [b, d, c, a][..3] == [b, d, c];
  }
}
