/**
 The butex waiter queue, one operation at a time: an intrusive list of nodes in which a
 removed waiter stays behind as a tombstone, marked `claimed`, until a pop skips it. Its
 contents are the nodes that are linked and not claimed, in link order, and the operations
 are those of a double-ended sequence. `nodes` is the chain from head to tail.
 */
module MpmcQueue {
  class Node {
    var next: Node?
    var claimed: bool
    var isWaiting: bool

    constructor (isWaiting: bool)
      ensures next == null && !claimed && this.isWaiting == isWaiting
    {
      next, claimed, this.isWaiting := null, false, isWaiting;
    }
  }

  // ---- The sequence that the chain stands for ----

  function Live(nodes: seq<Node>, dead: set<Node>): seq<Node> {
    if nodes == [] then []
    else (if nodes[0] in dead then [] else [nodes[0]]) + Live(nodes[1..], dead)
  }

  function Without(s: seq<Node>, n: Node): seq<Node> {
    if s == [] then []
    else (if s[0] == n then [] else [s[0]]) + Without(s[1..], n)
  }

  predicate Distinct(nodes: seq<Node>) {
    forall i, j | 0 <= i < j < |nodes| :: nodes[i] != nodes[j]
  }

  lemma {:induction false} LiveAppend(a: seq<Node>, b: seq<Node>, dead: set<Node>)
    ensures Live(a + b, dead) == Live(a, dead) + Live(b, dead)
    decreases |a|
  {
    if a == [] {
      assert a + b == b;
    } else {
      assert (a + b)[1..] == a[1..] + b;
      LiveAppend(a[1..], b, dead);
    }
  }

  lemma LiveSingle(n: Node, dead: set<Node>)
    ensures Live([n], dead) == if n in dead then [] else [n]
  {
    assert [n][1..] == [];
  }

  // Only what is said of the chain's own nodes matters.
  lemma {:induction false} LiveSame(nodes: seq<Node>, dead: set<Node>, dead': set<Node>)
    requires forall n | n in nodes :: n in dead <==> n in dead'
    ensures Live(nodes, dead) == Live(nodes, dead')
    decreases |nodes|
  {
    if nodes != [] {
      assert nodes[0] in nodes && forall n | n in nodes[1..] :: n in nodes;
      LiveSame(nodes[1..], dead, dead');
    }
  }

  lemma {:induction false} LiveIn(nodes: seq<Node>, dead: set<Node>, n: Node)
    ensures n in Live(nodes, dead) <==> n in nodes && n !in dead
    decreases |nodes|
  {
    if nodes != [] {
      LiveIn(nodes[1..], dead, n);
    }
  }

  /** A tombstone takes its node out of the contents, wherever it stands, and nothing else. */
  lemma {:induction false} LiveWithTombstone(nodes: seq<Node>, dead: set<Node>, n: Node)
    ensures Live(nodes, dead + {n}) == Without(Live(nodes, dead), n)
    decreases |nodes|
  {
    if nodes != [] {
      LiveWithTombstone(nodes[1..], dead, n);
      var rest := Live(nodes[1..], dead);
      if nodes[0] in dead {
        assert Live(nodes, dead) == rest;
      } else {
        assert ([nodes[0]] + rest)[1..] == rest;
      }
    }
  }

  lemma {:induction false} WithoutAbsent(s: seq<Node>, n: Node)
    requires n !in s
    ensures Without(s, n) == s
    decreases |s|
  {
    if s != [] {
      WithoutAbsent(s[1..], n);
    }
  }

  lemma {:induction false} WithoutAppend(a: seq<Node>, b: seq<Node>, n: Node)
    ensures Without(a + b, n) == Without(a, n) + Without(b, n)
    decreases |a|
  {
    if a == [] {
      assert a + b == b;
    } else {
      assert (a + b)[1..] == a[1..] + b;
      WithoutAppend(a[1..], b, n);
    }
  }

  // The contents before and behind one node of the chain.
  lemma LiveAround(nodes: seq<Node>, dead: set<Node>, i: nat)
    requires i < |nodes| && Distinct(nodes)
    ensures var n, before, behind := nodes[i], Live(nodes[..i], dead), Live(nodes[i + 1..], dead);
      && Live(nodes, dead) == before + (if n in dead then [] else [n]) + behind
      && n !in before && n !in behind
  {
    var n, front, back := nodes[i], nodes[..i], nodes[i + 1..];
    assert nodes == front + [n] + back;
    LiveAppend(front + [n], back, dead);
    LiveAppend(front, [n], dead);
    LiveSingle(n, dead);
    LiveIn(front, dead, n);
    LiveIn(back, dead, n);
  }

  lemma WithoutMiddle(before: seq<Node>, middle: seq<Node>, behind: seq<Node>, n: Node)
    requires n !in before && n !in behind && (middle == [] || middle == [n])
    ensures Without(before + middle + behind, n) == before + behind
  {
    WithoutAppend(before + middle, behind, n);
    WithoutAppend(before, middle, n);
    WithoutAbsent(before, n);
    WithoutAbsent(behind, n);
    WithoutSingle(middle, n);
    assert before + [] == before;
  }

  lemma WithoutSingle(middle: seq<Node>, n: Node)
    requires middle == [] || middle == [n]
    ensures Without(middle, n) == []
  {
    if middle != [] {
      assert middle[1..] == [];
    }
  }

  lemma LiveUpTo(nodes: seq<Node>, dead: set<Node>, i: nat)
    requires i < |nodes| && Distinct(nodes)
    ensures Live(nodes[..i + 1], dead - {nodes[i]}) == Live(nodes[..i], dead) + [nodes[i]]
  {
    var n := nodes[i];
    assert nodes[..i + 1] == nodes[..i] + [n];
    LiveAppend(nodes[..i], [n], dead - {n});
    LiveSame(nodes[..i], dead, dead - {n});
  }

  /** Cutting the chain off behind a node and reviving the node moves it to the back of the
      contents exactly when no live node stood behind it. */
  lemma CutKeepsContentsIff(nodes: seq<Node>, dead: set<Node>, i: nat)
    requires i < |nodes| && Distinct(nodes)
    ensures Live(nodes[..i + 1], dead - {nodes[i]}) == Without(Live(nodes, dead), nodes[i]) + [nodes[i]]
      <==> Live(nodes[i + 1..], dead) == []
  {
    var n, before, behind := nodes[i], Live(nodes[..i], dead), Live(nodes[i + 1..], dead);
    LiveAround(nodes, dead, i);
    WithoutMiddle(before, if n in dead then [] else [n], behind, n);
    LiveUpTo(nodes, dead, i);
    assert |before + behind + [n]| == |before + [n]| + |behind|;
    assert behind == [] ==> before + behind == before;
  }

  // A new first node; it alone may be a tombstone now, or no longer.
  lemma LiveFirst(n: Node, nodes: seq<Node>, dead: set<Node>, dead': set<Node>)
    requires n !in nodes && (dead' == dead + {n} || dead' == dead - {n})
    ensures Live([n] + nodes, dead') == (if n in dead' then [] else [n]) + Live(nodes, dead)
    ensures forall m | m in nodes :: m in dead <==> m in dead'
  {
    LiveSame(nodes, dead, dead');
    assert ([n] + nodes)[1..] == nodes;
  }

  // Where the node stands in the chain, or the chain's length.
  predicate IsPlace(nodes: seq<Node>, n: Node, at: nat) {
    if n in nodes then at < |nodes| && nodes[at] == n else at == |nodes|
  }

  lemma PlaceOf(nodes: seq<Node>, n: Node) returns (at: nat)
    ensures IsPlace(nodes, n, at)
  {
    at := |nodes|;
    if n in nodes {
      at :| 0 <= at < |nodes| && nodes[at] == n;
    }
  }

  class MpmcQueue {
    var head: Node?
    var tail: Node?
    ghost var nodes: seq<Node>
    ghost var dead: set<Node>

    ghost predicate Linked()
      reads this, nodes
    {
      && head == (if nodes == [] then null else nodes[0])
      && tail == (if nodes == [] then null else nodes[|nodes| - 1])
      && (forall i | 0 <= i < |nodes| - 1 :: nodes[i].next == nodes[i + 1])
      && (nodes != [] ==> nodes[|nodes| - 1].next == null)
    }

    ghost predicate Valid()
      reads this, nodes
    {
      Distinct(nodes) && Linked() && Flags()
    }

    ghost function Contents(): seq<Node>
      reads this
    {
      Live(nodes, dead)
    }

    constructor ()
      ensures Valid() && nodes == []
    {
      head, tail, nodes, dead := null, null, [], {};
    }

    // The stores of AddToTail to the links; `at` is where the item was linked before.
    method LinkLast(item: Node) returns (ghost at: nat)
      requires Distinct(nodes) && Linked()
      modifies this`head, this`tail, this`nodes, item`next, nodes
      ensures IsPlace(old(nodes), item, at)
      ensures at == |old(nodes)| ==> Linked() && nodes == old(nodes) + [item]
      ensures at < |old(nodes)| - 1 ==> Linked() && nodes == old(nodes)[..at + 1]
      ensures at == |old(nodes)| - 1 ==> head == old(head) && tail == item && item.next == item
      ensures item.claimed == old(item.claimed) && item.isWaiting == old(item.isWaiting)
      ensures forall n | n in old(nodes) :: n.claimed == old(n.claimed) && n.isWaiting == old(n.isWaiting)
    {
      item.next := null;
      var prev := tail;
      tail := item;
      if prev != null {
        prev.next := item;
      } else if head == null {
        head := item;
      }
      at := |nodes|;
      if item !in nodes {
        nodes := nodes + [item];
      } else {
        at :| 0 <= at < |nodes| && nodes[at] == item;
        nodes := nodes[..at + 1];
      }
    }

    ghost predicate Flags()
      reads this, nodes
    {
      forall n | n in nodes :: n.claimed <==> n in dead
    }

    method ClearClaimed(item: Node)
      requires Flags()
      modifies this`dead, item`claimed
      ensures Flags() && dead == old(dead) - {item} && !item.claimed
      ensures item !in nodes ==> Contents() == old(Contents())
    {
      item.claimed := false;
      dead := dead - {item};
      if item !in nodes {
        LiveSame(nodes, old(dead), dead);
      }
    }

    /** With a cleared is_waiting flag nothing happens. A node that is not linked becomes the
        last of the contents. A node that is still linked, at place `at`, cuts off what stood
        behind it, and if it was the last it is linked to itself. So adding a linked node leaves
        a queue with the node moved to the back exactly when it was not the last, and nothing
        live stood behind it. */
    method AddToTail(item: Node, flagged: bool) returns (ghost at: nat)
      requires Valid()
      modifies this, item, nodes
      ensures IsPlace(old(nodes), item, at) && item.isWaiting == old(item.isWaiting)
      ensures flagged && !old(item.isWaiting) ==>
        Valid() && nodes == old(nodes) && dead == old(dead)
      ensures !(flagged && !old(item.isWaiting)) && at == |old(nodes)| ==>
        Valid() && nodes == old(nodes) + [item] && Contents() == old(Contents()) + [item]
      ensures !(flagged && !old(item.isWaiting)) && at < |old(nodes)| - 1 ==>
        Valid() && nodes == old(nodes)[..at + 1] && Contents() == Live(old(nodes)[..at], old(dead)) + [item]
      ensures !(flagged && !old(item.isWaiting)) && at == |old(nodes)| - 1 ==>
        head == old(head) && tail == item && item.next == item
      ensures !(flagged && !old(item.isWaiting)) && at < |old(nodes)| ==>
        ((Valid() && Contents() == Without(old(Contents()), item) + [item])
         <==> (at < |old(nodes)| - 1 && Live(old(nodes)[at + 1..], old(dead)) == []))
      ensures !(flagged && !old(item.isWaiting)) ==> !item.claimed
      ensures forall n | n in old(nodes) && n != item :: n.claimed == old(n.claimed) && n.isWaiting == old(n.isWaiting)
    {
      if flagged && !item.isWaiting {
        at := PlaceOf(nodes, item);
        return;
      }
      // The flag is read once more after the exchange; only another call can have cleared it.
      ClearClaimed(item);
      ghost var nodes0 := nodes;
      at := LinkLast(item);
      if at == |nodes0| {
        LiveAppend(nodes0, [item], dead);
      } else {
        ReAdded(item, at, nodes0, old(dead));
      }
    }

    // What adding a linked node has come to.
    lemma ReAdded(item: Node, i: nat, nodes0: seq<Node>, dead0: set<Node>)
      requires Distinct(nodes0) && i < |nodes0| && nodes0[i] == item
      requires i < |nodes0| - 1 ==> Valid() && nodes == nodes0[..i + 1] && dead == dead0 - {item}
      requires i == |nodes0| - 1 ==> tail == item && item.next == item
      ensures i < |nodes0| - 1 ==> Contents() == Live(nodes0[..i], dead0) + [item]
      ensures (Valid() && Contents() == Without(Live(nodes0, dead0), item) + [item])
        <==> (i < |nodes0| - 1 && Live(nodes0[i + 1..], dead0) == [])
    {
      LiveUpTo(nodes0, dead0, i);
      CutKeepsContentsIff(nodes0, dead0, i);
    }

    /** A node that is not linked becomes the first of the contents if its claimed flag is
        clear; this operation does not clear it. A node that is still linked closes a cycle. */
    method AddToHead(item: Node, flagged: bool)
      requires Valid()
      modifies this, item, nodes
      ensures flagged && !old(item.isWaiting) ==>
        Valid() && nodes == old(nodes) && dead == old(dead)
      ensures !(flagged && !old(item.isWaiting)) && item !in old(nodes) ==>
        Valid() && nodes == [item] + old(nodes) &&
        Contents() == (if old(item.claimed) then [] else [item]) + old(Contents())
      ensures !(flagged && !old(item.isWaiting)) && item in old(nodes) ==>
        head == item && item.next == old(head)
      ensures item.isWaiting == old(item.isWaiting) && item.claimed == old(item.claimed)
    {
      if flagged && !item.isWaiting {
        return;
      }
      ghost var rest := nodes;
      LinkFirst(item);
      if item !in rest {
        ghost var dead0 := dead;
        dead := if item.claimed then dead + {item} else dead - {item};
        LiveFirst(item, rest, dead0, dead);
      }
    }

    // The stores of AddToHead to the links.
    method LinkFirst(item: Node)
      requires Distinct(nodes) && Linked()
      modifies this`head, this`tail, this`nodes, item`next
      ensures item !in old(nodes) ==> Distinct(nodes) && Linked() && nodes == [item] + old(nodes)
      ensures item in old(nodes) ==> nodes == old(nodes) && head == item && item.next == old(head)
    {
      var oldHead := head;
      item.next := oldHead;
      head := item;
      if oldHead == null && tail == null {
        tail := item;
      }
      if item !in nodes {
        nodes := [item] + nodes;
      }
    }

    // The head node leaves the chain.
    method Unlink()
      requires Valid() && head != null
      modifies this
      ensures Valid() && nodes == old(nodes)[1..] && dead == old(dead)
    {
      var next := head.next;
      if next == null {
        // tail == head: both go to null
        head := null;
        tail := null;
      } else {
        head := next;
      }
      nodes := nodes[1..];
    }

    // The head node is claimed and leaves the chain.
    method TakeHead() returns (item: Node)
      requires Valid() && nodes != [] && !nodes[0].claimed
      modifies this, {nodes[0]}
      ensures Valid() && nodes == old(nodes)[1..] && item == old(nodes)[0] && item.claimed
      ensures item.isWaiting == old(nodes[0].isWaiting)
      ensures old(Contents()) == [item] + Contents()
    {
      item := head;
      ghost var rest, dead0 := nodes[1..], dead;
      assert item !in rest;
      item.claimed := true;
      dead := dead + {item};
      Unlink();
      LiveSame(rest, dead0, dead);
    }

    /** Null exactly when nothing is live; otherwise the first live node, which leaves the
        contents. The tombstones before it are unlinked, and the loop ends with the chain. */
    method PopFromHead() returns (item: Node?, ghost gone: nat)
      requires Valid()
      modifies this, nodes
      ensures Valid()
      ensures item == null ==> old(Contents()) == [] && nodes == []
      ensures item != null ==> old(Contents()) == [item] + Contents() && item.claimed && item !in nodes
      ensures gone <= |old(nodes)| && nodes == old(nodes)[gone..]
      ensures forall n | n in old(nodes) :: n.isWaiting == old(n.isWaiting)
    {
      gone := 0;
      while true
        invariant gone <= |old(nodes)| && nodes == old(nodes)[gone..]
        invariant Valid() && Contents() == old(Contents())
        invariant forall n | n in old(nodes) :: n.isWaiting == old(n.isWaiting)
        decreases |nodes|
      {
        if head == null {
          assert tail == null;
          return null, gone;
        }
        gone := gone + 1;
        if !head.claimed {
          item := TakeHead();
          return;
        }
        Unlink();
      }
    }

    /** The first live nodes, as many as there are up to the maximum. */
    method PopMultipleFromHead(maxCount: int) returns (items: seq<Node>)
      requires Valid()
      modifies this, nodes
      ensures Valid() && items + Contents() == old(Contents())
      ensures |items| == if maxCount < 0 then 0 else if maxCount < |old(Contents())| then maxCount else |old(Contents())|
    {
      items := [];
      ghost var k: nat := 0;
      while |items| < maxCount
        invariant k <= |old(nodes)| && nodes == old(nodes)[k..]
        invariant Valid() && items + Contents() == old(Contents())
        invariant maxCount >= 0 ==> |items| <= maxCount
        invariant maxCount < 0 ==> items == []
      {
        ghost var before := Contents();
        var item, gone := PopFromHead();
        k := k + gone;
        if item == null {
          break;
        }
        assert items + before == (items + [item]) + Contents();
        items := items + [item];
      }
    }

    /** A waiter whose flag is still set leaves the contents, wherever it stands. */
    method Remove(item: Node, flagged: bool) returns (removed: bool)
      requires Valid()
      modifies item, this`dead
      ensures Valid() && nodes == old(nodes)
      ensures removed == (flagged && old(item.isWaiting))
      ensures Contents() == if removed then Without(old(Contents()), item) else old(Contents())
      ensures item.isWaiting == (old(item.isWaiting) && !removed)
      ensures item.claimed == (old(item.claimed) || removed) && item.next == old(item.next)
    {
      if !flagged || !item.isWaiting {
        return false;
      }
      item.isWaiting := false;
      item.claimed := true;
      LiveWithTombstone(nodes, dead, item);
      dead := dead + {item};
      return true;
    }

    /** Says that nothing is linked, which it need not be when only tombstones are left. */
    method IsEmpty() returns (empty: bool)
      requires Valid()
      ensures empty <==> nodes == []
      ensures empty ==> Contents() == []
    {
      return head == null;
    }
  }

  /** A waiter that timed out and waits again while its tombstone is still linked takes with
      it the waiter that queued behind it, which is never popped. */
  method TimeOutAndWaitAgain(queue: MpmcQueue, early: Node, late: Node) returns (popped: seq<Node>)
    requires queue.Valid() && queue.nodes == [early, late]
    requires early.isWaiting && late.isWaiting && !late.claimed
    modifies queue, early, late
    ensures popped == [early] && late.isWaiting && !late.claimed && queue.Valid() && queue.nodes == []
  {
    assert early != late;
    var _ := queue.Remove(early, true);
    early.isWaiting := true;
    ghost var nodes := queue.nodes;
    assert nodes[0] == early && nodes[..1] == [early];
    var _ := queue.AddToTail(early, true);
    assert queue.nodes == [early] && nodes[..0] == [] && queue.Contents() == [early];
    ghost var contents := queue.Contents();
    var first, _ := queue.PopFromHead();
    assert first != null && contents == [first] + queue.Contents() && contents[0] == first;
    var second, _ := queue.PopFromHead();
    popped := [first] + if second == null then [] else [second];
  }

  /** The only waiter that timed out and waits again is linked to itself: the chain has no end
      any more. */
  method ReAddingTheLastClosesALoop() returns (queue: MpmcQueue, only: Node)
    ensures fresh(queue) && fresh(only)
    ensures queue.head == queue.tail == only && only.next == only && !queue.Valid()
  {
    queue := new MpmcQueue();
    only := new Node(true);
    var _ := queue.AddToTail(only, true);
    assert queue.nodes == [only];
    TimeOutAlone(queue, only);
  }

  method TimeOutAlone(queue: MpmcQueue, only: Node)
    requires queue.Valid() && queue.nodes == [only] && only.isWaiting
    modifies queue, only
    ensures queue.head == queue.tail == only && only.next == only && !queue.Valid()
  {
    var _ := queue.Remove(only, true);
    only.isWaiting := true;
    assert queue.nodes[0] == only;
    var _ := queue.AddToTail(only, true);
  }

  method TwoWaiters() returns (queue: MpmcQueue, early: Node, late: Node)
    ensures fresh(queue) && fresh(early) && fresh(late)
    ensures queue.Valid() && queue.nodes == [early, late]
    ensures early.isWaiting && late.isWaiting && !early.claimed && !late.claimed
  {
    queue := new MpmcQueue();
    early := new Node(true);
    var _ := queue.AddToTail(early, true);
    assert queue.nodes == [early];
    late := new Node(true);
    assert late !in queue.nodes;
    var _ := queue.AddToTail(late, true);
    assert queue.nodes == [early, late];
  }

  /** It happens: of two live waiters the second is lost. The queue says that it is empty, and
      the waiter still waits, having been in it and not been popped. */
  method ReAddingLosesAWaiter() returns (queue: MpmcQueue, early: Node, late: Node, ghost before: seq<Node>, popped: seq<Node>)
    ensures fresh(queue) && queue.Valid() && before == [early, late] && early != late
    ensures popped == [early] && queue.Contents() == [] && late.isWaiting && !late.claimed
  {
    queue, early, late := TwoWaiters();
    before := queue.Contents();
    BothLive(queue, early, late);
    popped := TimeOutAndWaitAgain(queue, early, late);
  }

  lemma BothLive(queue: MpmcQueue, early: Node, late: Node)
    requires queue.Valid() && queue.nodes == [early, late] && !early.claimed && !late.claimed
    ensures queue.Contents() == [early, late]
  {
    assert queue.nodes[0] == early && queue.nodes[1] == late;
    assert [early, late] == [early] + [late];
    LiveAppend([early], [late], queue.dead);
    LiveSingle(early, queue.dead);
    LiveSingle(late, queue.dead);
  }

  /** A task has one node for all butexes. A waiter that timed out on one and now waits on
      another joins the other queue as it should, but its node is linked in the first one still:
      what stood behind it there is cut off, so that the first chain stays whole exactly when it
      was the last one, and in either case it is no tombstone there any more. */
  method WaitElsewhere(first: MpmcQueue, second: MpmcQueue, item: Node)
    requires first != second && first.Valid() && second.Valid() && item in first.nodes
    requires forall n | n in first.nodes :: n !in second.nodes
    requires item.isWaiting
    modifies second, item, second.nodes
    ensures second.Valid() && second.Contents() == old(second.Contents()) + [item]
    ensures first.nodes == old(first.nodes) && first.head == old(first.head) && first.tail == old(first.tail)
    ensures first.Linked() <==> item == first.nodes[|first.nodes| - 1]
    ensures item.next == null && !item.claimed
  {
    ghost var i: nat :| i < |first.nodes| && first.nodes[i] == item;
    ghost var at := second.AddToTail(item, true);
    assert second.nodes[|second.nodes| - 1] == item;
    forall k | 0 <= k < |first.nodes| && k != i ensures first.nodes[k].next == old(first.nodes[k].next) {
      assert first.nodes[k] in first.nodes && first.nodes[k] != item;
    }
    if i < |first.nodes| - 1 {
      assert first.nodes[i].next == null && first.nodes[i].next != first.nodes[i + 1];
    }
  }
}
