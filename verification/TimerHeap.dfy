/**
 The array binary heap of a timer shard, ordered by deadline. `SiftUp`, `SiftDown`, `Insert`
 and `PopRoot` say what the shard's loops compute; the lemmas say what that means: the
 entries are only permuted, heap order is restored from a single violation, and the root is
 a minimum.
 */
module TimerHeap {
  datatype Timer = Timer(id: nat, deadline: int, arg: nat, cancelled: bool)

  function Parent(i: nat): nat
    requires i > 0
  {
    (i - 1) / 2
  }

  function Swap(h: seq<Timer>, i: nat, j: nat): seq<Timer>
    requires i < |h| && j < |h|
  {
    h[i := h[j]][j := h[i]]
  }

  function SiftUp(h: seq<Timer>, idx: nat): (r: seq<Timer>)
    requires idx < |h|
    ensures |r| == |h|
    decreases idx
  {
    if idx == 0 || h[Parent(idx)].deadline <= h[idx].deadline then h
    else SiftUp(Swap(h, idx, Parent(idx)), Parent(idx))
  }

  // The smaller of a node and its children, the node itself first, then the left child.
  function Smallest(h: seq<Timer>, idx: nat): nat
    requires idx < |h|
  {
    var left, right := 2 * idx + 1, 2 * idx + 2;
    var s := if left < |h| && h[left].deadline < h[idx].deadline then left else idx;
    if right < |h| && h[right].deadline < h[s].deadline then right else s
  }

  function SiftDown(h: seq<Timer>, idx: nat): (r: seq<Timer>)
    requires idx < |h|
    ensures |r| == |h|
    decreases |h| - idx
  {
    var s := Smallest(h, idx);
    if s == idx then h else SiftDown(Swap(h, idx, s), s)
  }

  function Insert(h: seq<Timer>, t: Timer): seq<Timer> {
    SiftUp(h + [t], |h|)
  }

  function PopRoot(h: seq<Timer>): seq<Timer>
    requires h != []
  {
    var rest := h[0 := h[|h| - 1]][..|h| - 1];
    if rest == [] then rest else SiftDown(rest, 0)
  }

  // ---- Heap order ----

  predicate Above(h: seq<Timer>, i: nat)
    requires 0 < i < |h|
  {
    h[Parent(i)].deadline <= h[i].deadline
  }

  predicate IsHeap(h: seq<Timer>) {
    forall i | 0 < i < |h| :: Above(h, i)
  }

  // Heap order but for k and its parent; k's children are in order with k's parent.
  predicate HeapButUp(h: seq<Timer>, k: nat)
    requires k < |h|
  {
    && (forall i | 0 < i < |h| && i != k :: Above(h, i))
    && (forall i | 0 < i < |h| && Parent(i) == k && k > 0 :: h[Parent(k)].deadline <= h[i].deadline)
  }

  // Heap order but for k and its children; the children are in order with k's parent.
  predicate HeapButDown(h: seq<Timer>, k: nat)
    requires k < |h|
  {
    && (forall i | 0 < i < |h| && Parent(i) != k :: Above(h, i))
    && (forall i | 0 < i < |h| && Parent(i) == k && k > 0 :: h[Parent(k)].deadline <= h[i].deadline)
  }

  lemma SwapPermutes(h: seq<Timer>, i: nat, j: nat)
    requires i < |h| && j < |h|
    ensures multiset(Swap(h, i, j)) == multiset(h)
  {
    if i < j {
      SwapParts(h, i, j);
    } else if j < i {
      SwapParts(h, j, i);
      assert Swap(h, i, j) == Swap(h, j, i);
    } else {
      assert Swap(h, i, j) == h;
    }
  }

  lemma SwapParts(h: seq<Timer>, i: nat, j: nat)
    requires i < j < |h|
    ensures multiset(Swap(h, i, j)) == multiset(h)
  {
    var a, b, c := h[..i], h[i + 1..j], h[j + 1..];
    assert h == a + [h[i]] + b + [h[j]] + c;
    assert Swap(h, i, j) == a + [h[j]] + b + [h[i]] + c;
  }

  lemma {:induction false} SiftUpPermutes(h: seq<Timer>, idx: nat)
    requires idx < |h|
    ensures multiset(SiftUp(h, idx)) == multiset(h)
    decreases idx
  {
    if idx > 0 && h[Parent(idx)].deadline > h[idx].deadline {
      SwapPermutes(h, idx, Parent(idx));
      SiftUpPermutes(Swap(h, idx, Parent(idx)), Parent(idx));
    }
  }

  lemma {:induction false} SiftDownPermutes(h: seq<Timer>, idx: nat)
    requires idx < |h|
    ensures multiset(SiftDown(h, idx)) == multiset(h)
    decreases |h| - idx
  {
    var s := Smallest(h, idx);
    if s != idx {
      SwapPermutes(h, idx, s);
      SiftDownPermutes(Swap(h, idx, s), s);
    }
  }

  lemma {:induction false} SiftUpRestores(h: seq<Timer>, idx: nat)
    requires idx < |h| && HeapButUp(h, idx)
    ensures IsHeap(SiftUp(h, idx))
    decreases idx
  {
    if idx > 0 {
      if h[Parent(idx)].deadline <= h[idx].deadline {
        assert Above(h, idx);
      } else {
        SwapUp(h, idx);
        SiftUpRestores(Swap(h, idx, Parent(idx)), Parent(idx));
      }
    }
  }

  lemma SwapUp(h: seq<Timer>, idx: nat)
    requires 0 < idx < |h| && HeapButUp(h, idx) && h[Parent(idx)].deadline > h[idx].deadline
    ensures HeapButUp(Swap(h, idx, Parent(idx)), Parent(idx))
  {
    var p := Parent(idx);
    var h' := Swap(h, idx, p);
    forall i | 0 < i < |h| && i != p ensures Above(h', i) {
      if i != idx { assert Above(h, i); }
    }
    forall i | 0 < i < |h| && Parent(i) == p && p > 0 ensures h'[Parent(p)].deadline <= h'[i].deadline {
      assert Above(h, p);
      if i != idx { assert Above(h, i); }
    }
  }

  lemma {:induction false} SiftDownRestores(h: seq<Timer>, idx: nat)
    requires idx < |h| && HeapButDown(h, idx)
    ensures IsHeap(SiftDown(h, idx))
    decreases |h| - idx
  {
    var s := Smallest(h, idx);
    if s == idx {
      forall i | 0 < i < |h| ensures Above(h, i) {
        if Parent(i) == idx { assert i == 2 * idx + 1 || i == 2 * idx + 2; }
      }
    } else {
      SwapDown(h, idx);
      SiftDownRestores(Swap(h, idx, s), s);
    }
  }

  lemma SwapDown(h: seq<Timer>, idx: nat)
    requires idx < |h| && HeapButDown(h, idx) && Smallest(h, idx) != idx
    ensures HeapButDown(Swap(h, idx, Smallest(h, idx)), Smallest(h, idx))
  {
    var s := Smallest(h, idx);
    var h' := Swap(h, idx, s);
    assert s > 0 && Parent(s) == idx;
    forall i | 0 < i < |h| && Parent(i) != s ensures Above(h', i) {
      if Parent(i) == idx {
        assert i == 2 * idx + 1 || i == 2 * idx + 2;
      } else if i == idx {
        assert h[Parent(idx)].deadline <= h[s].deadline;
      } else {
        assert Above(h, i);
      }
    }
    forall i | 0 < i < |h| && Parent(i) == s ensures h'[Parent(s)].deadline <= h'[i].deadline {
      assert Above(h, i);
    }
  }

  /** The root is a minimum. */
  lemma {:induction false} RootIsMinimum(h: seq<Timer>, i: nat)
    requires IsHeap(h) && i < |h|
    ensures h[0].deadline <= h[i].deadline
    decreases i
  {
    if i > 0 {
      assert Above(h, i);
      RootIsMinimum(h, Parent(i));
    }
  }

  lemma RootIsMinimumOfAll(h: seq<Timer>)
    requires IsHeap(h) && h != []
    ensures forall t | t in multiset(h) :: h[0].deadline <= t.deadline
  {
    forall t | t in multiset(h) ensures h[0].deadline <= t.deadline {
      var i: nat :| i < |h| && h[i] == t;
      RootIsMinimum(h, i);
    }
  }

  /** Inserting adds exactly the new entry and keeps heap order. */
  lemma InsertIsHeap(h: seq<Timer>, t: Timer)
    requires IsHeap(h)
    ensures IsHeap(Insert(h, t)) && multiset(Insert(h, t)) == multiset(h) + multiset{t}
  {
    var h' := h + [t];
    forall i | 0 < i < |h'| && i != |h| ensures Above(h', i) {
      assert Above(h, i);
    }
    SiftUpPermutes(h', |h|);
    SiftUpRestores(h', |h|);
  }

  /** Popping removes exactly the root and keeps heap order. */
  lemma PopRootIsHeap(h: seq<Timer>)
    requires IsHeap(h) && h != []
    ensures IsHeap(PopRoot(h)) && multiset(PopRoot(h)) + multiset{h[0]} == multiset(h)
  {
    var rest := h[0 := h[|h| - 1]][..|h| - 1];
    LastToRoot(h);
    if |h| > 1 {
      forall i | 0 < i < |rest| && Parent(i) != 0 ensures Above(rest, i) {
        assert Above(h, i);
      }
      SiftDownPermutes(rest, 0);
      SiftDownRestores(rest, 0);
    }
  }

  lemma LastToRoot(h: seq<Timer>)
    requires h != []
    ensures var rest := h[0 := h[|h| - 1]][..|h| - 1];
      && multiset(rest) + multiset{h[0]} == multiset(h)
      && forall i | 0 < i < |rest| :: rest[i] == h[i]
  {
    var last, rest := h[|h| - 1], h[0 := h[|h| - 1]][..|h| - 1];
    if |h| == 1 {
      assert h == [h[0]] && rest == [];
    } else {
      assert h == [h[0]] + h[1..|h| - 1] + [last];
      assert rest == [last] + h[1..|h| - 1];
    }
  }

  // ---- Lazy cancellation ----

  // The entry with the given id, if there is one, is marked where it stands.
  function MarkCancelled(h: seq<Timer>, id: nat): (r: seq<Timer>)
    ensures |r| == |h|
  {
    if h == [] then h
    else if h[0].id == id then [h[0].(cancelled := true)] + h[1..]
    else [h[0]] + MarkCancelled(h[1..], id)
  }

  predicate HasId(h: seq<Timer>, id: nat) {
    exists i | 0 <= i < |h| :: h[i].id == id
  }

  lemma {:induction false} MarkCancelledAt(h: seq<Timer>, id: nat, k: nat)
    requires k < |h| && h[k].id == id && forall i | 0 <= i < k :: h[i].id != id
    ensures MarkCancelled(h, id) == h[k := h[k].(cancelled := true)]
    decreases |h|
  {
    if k > 0 {
      MarkCancelledAt(h[1..], id, k - 1);
      assert [h[0]] + h[1..][k - 1 := h[k].(cancelled := true)] == h[k := h[k].(cancelled := true)];
    }
  }

  lemma {:induction false} MarkCancelledAbsent(h: seq<Timer>, id: nat)
    requires !HasId(h, id)
    ensures MarkCancelled(h, id) == h
    decreases |h|
  {
    if h != [] {
      var rest := h[1..];
      forall i | 0 <= i < |rest| ensures rest[i].id != id {
        assert rest[i] == h[i + 1];
      }
      MarkCancelledAbsent(rest, id);
      assert h[0].id != id && h == [h[0]] + rest;
    }
  }

  lemma FirstWithId(h: seq<Timer>, id: nat) returns (k: nat)
    requires HasId(h, id)
    ensures k < |h| && h[k].id == id && forall i | 0 <= i < k :: h[i].id != id
  {
    k := 0;
    while h[k].id != id
      invariant k < |h| && forall i | 0 <= i < k :: h[i].id != id
      invariant exists i | k <= i < |h| :: h[i].id == id
      decreases |h| - k
    {
      k := k + 1;
    }
  }

  /** Marking changes one entry's flag and nothing else: heap order stays. */
  lemma MarkCancelledKeepsHeap(h: seq<Timer>, id: nat)
    requires IsHeap(h)
    ensures IsHeap(MarkCancelled(h, id))
    ensures HasId(h, id) ==> exists t ::
      t in multiset(h) && t.id == id &&
      multiset(MarkCancelled(h, id)) == multiset(h) - multiset{t} + multiset{t.(cancelled := true)}
    ensures !HasId(h, id) ==> MarkCancelled(h, id) == h
  {
    if HasId(h, id) {
      var k := FirstWithId(h, id);
      MarkCancelledAt(h, id, k);
      var t := h[k];
      var h' := h[k := t.(cancelled := true)];
      forall i | 0 < i < |h'| ensures Above(h', i) {
        assert Above(h, i);
      }
      assert h == h[..k] + [t] + h[k + 1..];
      assert h' == h[..k] + [t.(cancelled := true)] + h[k + 1..];
    } else {
      MarkCancelledAbsent(h, id);
    }
  }
}
