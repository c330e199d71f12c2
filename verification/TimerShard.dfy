/**
 A timer shard: the heap and the cached earliest deadline. `ProcessShard` drops the lock
 around every callback; `windows` gives the insertions and cancellations that other calls
 make in the shard while it is dropped.
 */
module TimerShard {
  import opened TimerHeap

  const NEVER := 0x7FFF_FFFF_FFFF_FFFF  // INT64_MAX

  datatype ShardState = ShardState(heap: seq<Timer>, nextDeadline: int)

  // What another call does to the shard while it holds the lock.
  datatype Visit = Schedule(t: Timer) | Cancel(id: nat)

  // ---- What the operations do ----

  function Added(s: ShardState, t: Timer): ShardState {
    ShardState(Insert(s.heap, t), if t.deadline < s.nextDeadline then t.deadline else s.nextDeadline)
  }

  function Marked(s: ShardState, id: nat): ShardState {
    s.(heap := MarkCancelled(s.heap, id))
  }

  function Visited(s: ShardState, v: Visit): ShardState {
    match v
    case Schedule(t) => Added(s, t)
    case Cancel(id) => Marked(s, id)
  }

  function VisitedBy(s: ShardState, visits: seq<Visit>): (r: ShardState)
    ensures |r.heap| <= |s.heap| + |visits|
    decreases |visits|
  {
    if visits == [] then s else VisitedBy(Visited(s, visits[0]), visits[1..])
  }

  lemma {:induction false} VisitedByConcat(shard: ShardState, a: seq<Visit>, b: seq<Visit>)
    ensures VisitedBy(shard, a + b) == VisitedBy(VisitedBy(shard, a), b)
    decreases |a|
  {
    if a == [] {
      assert a + b == b;
    } else {
      assert (a + b)[1..] == a[1..] + b;
      VisitedByConcat(Visited(shard, a[0]), a[1..], b);
    }
  }

  predicate RootDue(s: ShardState, now: int) {
    s.heap != [] && s.heap[0].deadline <= now
  }

  // The cached deadline is brought up to date only after an entry that will be called.
  function RootTaken(s: ShardState): ShardState
    requires s.heap != []
  {
    var h := PopRoot(s.heap);
    ShardState(h, if s.heap[0].cancelled then s.nextDeadline else if h == [] then NEVER else h[0].deadline)
  }

  function Settled(s: ShardState): ShardState {
    if s.heap == [] then s else s.(nextDeadline := s.heap[0].deadline)
  }

  function Visits(windows: seq<seq<Visit>>): nat {
    if windows == [] then 0 else |windows[0]| + Visits(windows[1..])
  }

  // The shard after ProcessShard, and the entries whose callbacks ran.
  function Processed(s: ShardState, now: int, windows: seq<seq<Visit>>): (ShardState, seq<Timer>)
    decreases |s.heap| + Visits(windows)
  {
    if !RootDue(s, now) then (Settled(s), [])
    else if s.heap[0].cancelled then Processed(RootTaken(s), now, windows)
    else
      var visited := if windows == [] then RootTaken(s) else VisitedBy(RootTaken(s), windows[0]);
      var rest := Processed(visited, now, if windows == [] then [] else windows[1..]);
      (rest.0, [s.heap[0]] + rest.1)
  }

  // A turn whose callback runs.
  lemma TurnCalls(s: ShardState, now: int, windows: seq<seq<Visit>>)
    requires RootDue(s, now) && !s.heap[0].cancelled
    ensures var visited := if windows == [] then RootTaken(s) else VisitedBy(RootTaken(s), windows[0]);
      var rest := Processed(visited, now, if windows == [] then [] else windows[1..]);
      Processed(s, now, windows) == (rest.0, [s.heap[0]] + rest.1)
  {
  }

  // A call that has fired some entries ends as the rest of it ends.
  predicate Continues(whole: (ShardState, seq<Timer>), fired: seq<Timer>, rest: (ShardState, seq<Timer>)) {
    whole.0 == rest.0 && whole.1 == fired + rest.1
  }

  lemma ContinuesOn(whole: (ShardState, seq<Timer>), fired: seq<Timer>, here: (ShardState, seq<Timer>), entry: Timer,
        rest: (ShardState, seq<Timer>))
    requires Continues(whole, fired, here) && here == (rest.0, [entry] + rest.1)
    ensures Continues(whole, fired + [entry], rest)
  {
  }

  // ---- The invariant of a shard ----

  // The cached deadline is no later than any in the heap.
  predicate Covers(nextDeadline: int, h: seq<Timer>) {
    forall i | 0 <= i < |h| :: nextDeadline <= h[i].deadline
  }

  predicate ShardInv(s: ShardState) {
    IsHeap(s.heap) && Covers(s.nextDeadline, s.heap)
  }

  lemma CoversMultiset(nextDeadline: int, h: seq<Timer>, h': seq<Timer>)
    requires Covers(nextDeadline, h) && multiset(h') <= multiset(h)
    ensures Covers(nextDeadline, h')
  {
    forall i | 0 <= i < |h'| ensures nextDeadline <= h'[i].deadline {
      assert h'[i] in multiset(h') && h'[i] in multiset(h);
    }
  }

  lemma RootCovers(h: seq<Timer>)
    requires IsHeap(h) && h != []
    ensures Covers(h[0].deadline, h)
  {
    forall i | 0 <= i < |h| ensures h[0].deadline <= h[i].deadline {
      RootIsMinimum(h, i);
    }
  }

  lemma AddedKeepsInv(s: ShardState, t: Timer)
    requires ShardInv(s)
    ensures ShardInv(Added(s, t))
  {
    InsertIsHeap(s.heap, t);
    var next := Added(s, t).nextDeadline;
    assert Covers(next, s.heap + [t]);
    assert multiset(s.heap + [t]) == multiset(s.heap) + multiset{t};
    CoversMultiset(next, s.heap + [t], Insert(s.heap, t));
  }

  lemma MarkedKeepsInv(s: ShardState, id: nat)
    requires ShardInv(s)
    ensures ShardInv(Marked(s, id))
  {
    MarkCancelledKeepsHeap(s.heap, id);
    if HasId(s.heap, id) {
      var k := FirstWithId(s.heap, id);
      MarkCancelledAt(s.heap, id, k);
    }
  }

  lemma {:induction false} VisitedByKeepsInv(s: ShardState, visits: seq<Visit>)
    requires ShardInv(s)
    ensures ShardInv(VisitedBy(s, visits))
    decreases |visits|
  {
    if visits != [] {
      match visits[0] {
        case Schedule(t) => AddedKeepsInv(s, t);
        case Cancel(id) => MarkedKeepsInv(s, id);
      }
      VisitedByKeepsInv(Visited(s, visits[0]), visits[1..]);
    }
  }

  lemma RootTakenKeepsInv(s: ShardState)
    requires ShardInv(s) && s.heap != []
    ensures ShardInv(RootTaken(s))
  {
    PopRootIsHeap(s.heap);
    var h := PopRoot(s.heap);
    CoversMultiset(s.nextDeadline, s.heap, h);
    if h != [] {
      RootCovers(h);
    }
  }

  lemma SettledKeepsInv(s: ShardState)
    requires ShardInv(s)
    ensures ShardInv(Settled(s))
  {
    if s.heap != [] {
      RootCovers(s.heap);
    }
  }

  // ---- ProcessShard ----

  /** Whatever happens while the lock is dropped, the call ends with nothing due in the heap
      and with the cached deadline at the heap's minimum unless the heap is empty, and every
      entry that fired was due and not cancelled. */
  lemma {:induction false} ProcessedLeavesNothingDue(s: ShardState, now: int, windows: seq<seq<Visit>>)
    requires ShardInv(s)
    ensures var (s', fired) := Processed(s, now, windows);
      && ShardInv(s') && Covers(now + 1, s'.heap)
      && (s'.heap != [] ==> s'.nextDeadline == s'.heap[0].deadline)
      && forall t | t in fired :: t.deadline <= now && !t.cancelled
    decreases |s.heap| + Visits(windows)
  {
    if !RootDue(s, now) {
      SettledKeepsInv(s);
      if s.heap != [] {
        RootCovers(s.heap);
      }
    } else {
      RootTakenKeepsInv(s);
      if s.heap[0].cancelled {
        ProcessedLeavesNothingDue(RootTaken(s), now, windows);
      } else if windows == [] {
        ProcessedLeavesNothingDue(RootTaken(s), now, []);
      } else {
        VisitedByKeepsInv(RootTaken(s), windows[0]);
        ProcessedLeavesNothingDue(VisitedBy(RootTaken(s), windows[0]), now, windows[1..]);
      }
    }
  }

  predicate Fires(t: Timer, now: int) {
    t.deadline <= now && !t.cancelled
  }

  predicate SortedByDeadline(s: seq<Timer>) {
    forall i, j | 0 <= i < j < |s| :: s[i].deadline <= s[j].deadline
  }

  /** Undisturbed, ProcessShard fires exactly the uncancelled entries that are due, each as
      often as it stands in the heap and earliest first, and leaves exactly the later ones. */
  lemma {:induction false} UndisturbedFiresExactlyTheDue(s: ShardState, now: int)
    requires ShardInv(s)
    ensures var (s', fired) := Processed(s, now, []);
      && SortedByDeadline(fired)
      && forall t ::
        && multiset(fired)[t] == (if Fires(t, now) then multiset(s.heap)[t] else 0)
        && multiset(s'.heap)[t] == (if t.deadline <= now then 0 else multiset(s.heap)[t])
    decreases |s.heap|
  {
    var (s', fired) := Processed(s, now, []);
    if !RootDue(s, now) {
      if s.heap != [] {
        RootIsMinimumOfAll(s.heap);
      }
      forall t: Timer | t.deadline <= now ensures multiset(s.heap)[t] == 0 {
        assert t !in multiset(s.heap);
      }
    } else {
      var root, rest := s.heap[0], Processed(RootTaken(s), now, []);
      RootTakenKeepsInv(s);
      UndisturbedFiresExactlyTheDue(RootTaken(s), now);
      PopRootIsHeap(s.heap);
      forall t: Timer ensures multiset(s.heap)[t] == multiset(PopRoot(s.heap))[t] + (if t == root then 1 else 0) {
        assert multiset(s.heap)[t] == (multiset(PopRoot(s.heap)) + multiset{root})[t];
      }
      if !root.cancelled {
        FiredAfterRoot(s.heap, rest.1);
        assert multiset(fired) == multiset{root} + multiset(rest.1);
      }
    }
  }

  lemma FiredAfterRoot(h: seq<Timer>, fired: seq<Timer>)
    requires IsHeap(h) && h != [] && SortedByDeadline(fired)
    requires forall t :: multiset(fired)[t] <= multiset(PopRoot(h))[t]
    ensures SortedByDeadline([h[0]] + fired)
  {
    PopRootIsHeap(h);
    RootIsMinimumOfAll(h);
    forall i | 0 <= i < |fired| ensures h[0].deadline <= fired[i].deadline {
      assert fired[i] in multiset(fired);
      assert fired[i] in multiset(PopRoot(h));
    }
  }

  // ---- The cached deadline ----

  /** All entries that the call takes from the heap, those that it calls and those that it drops. */
  function Taken(s: ShardState, now: int, windows: seq<seq<Visit>>): seq<Timer>
    decreases |s.heap| + Visits(windows)
  {
    if !RootDue(s, now) then []
    else if s.heap[0].cancelled then [s.heap[0]] + Taken(RootTaken(s), now, windows)
    else
      var visited := if windows == [] then RootTaken(s) else VisitedBy(RootTaken(s), windows[0]);
      [s.heap[0]] + Taken(visited, now, if windows == [] then [] else windows[1..])
  }

  function Uncancelled(s: seq<Timer>): seq<Timer> {
    if s == [] then [] else (if s[0].cancelled then [] else [s[0]]) + Uncancelled(s[1..])
  }

  /** The entries that it calls are those taken that were not cancelled, in order. */
  lemma {:induction false} FiredIsUncancelledTaken(s: ShardState, now: int, windows: seq<seq<Visit>>)
    ensures Processed(s, now, windows).1 == Uncancelled(Taken(s, now, windows))
    decreases |s.heap| + Visits(windows)
  {
    if RootDue(s, now) {
      if s.heap[0].cancelled {
        FiredIsUncancelledTaken(RootTaken(s), now, windows);
        UncancelledFirst(s.heap[0], Taken(RootTaken(s), now, windows));
      } else {
        var visited := if windows == [] then RootTaken(s) else VisitedBy(RootTaken(s), windows[0]);
        var rest := if windows == [] then [] else windows[1..];
        FiredIsUncancelledTaken(visited, now, rest);
        UncancelledFirst(s.heap[0], Taken(visited, now, rest));
      }
    }
  }

  lemma UncancelledFirst(t: Timer, rest: seq<Timer>)
    ensures Uncancelled([t] + rest) == (if t.cancelled then [] else [t]) + Uncancelled(rest)
  {
    assert ([t] + rest)[1..] == rest;
  }

  // The cached deadline is the heap's minimum, and INT64_MAX for an empty heap.
  predicate Exact(s: ShardState) {
    s.nextDeadline == if s.heap == [] then 0x7FFF_FFFF_FFFF_FFFF else s.heap[0].deadline
  }

  lemma {:induction false} VisitsKeepSome(s: ShardState, visits: seq<Visit>)
    ensures s.heap != [] ==> VisitedBy(s, visits).heap != []
    ensures VisitedBy(s, visits).heap == [] ==> VisitedBy(s, visits) == s
    decreases |visits|
  {
    if visits != [] {
      if visits[0].Schedule? {
        InsertLength(s.heap, visits[0].t);
      }
      VisitsKeepSome(Visited(s, visits[0]), visits[1..]);
    }
  }

  lemma InsertLength(h: seq<Timer>, t: Timer)
    ensures |Insert(h, t)| == |h| + 1
  {
  }

  /** What the cached deadline is when a call ends with an empty heap: INT64_MAX exactly when the
      last entry that it took was called, or when it took none and it was INT64_MAX before. So a
      call that takes no cancelled entry leaves INT64_MAX, and one that ends with a cancelled one
      leaves a deadline that has passed. */
  lemma {:induction false} EmptyEndIff(s: ShardState, now: int, windows: seq<seq<Visit>>)
    requires ShardInv(s) && now < 0x7FFF_FFFF_FFFF_FFFF && Processed(s, now, windows).0.heap == []
    ensures var taken, end := Taken(s, now, windows), Processed(s, now, windows).0;
      && (Exact(end) <==> if taken == [] then Exact(s) else !taken[|taken| - 1].cancelled)
      && (taken != [] && taken[|taken| - 1].cancelled ==> end.nextDeadline <= now)
    decreases |s.heap| + Visits(windows)
  {
    if RootDue(s, now) {
      RootTakenKeepsInv(s);
      var root, s1 := s.heap[0], RootTaken(s);
      if root.cancelled {
        EmptyEndIff(s1, now, windows);
        LastOf(root, Taken(s1, now, windows));
        NothingTakenEnds(s1, now, windows);
      } else {
        var visited := if windows == [] then s1 else VisitedBy(s1, windows[0]);
        var rest := if windows == [] then [] else windows[1..];
        if windows != [] {
          VisitedByKeepsInv(s1, windows[0]);
          VisitsKeepSome(s1, windows[0]);
        }
        EmptyEndIff(visited, now, rest);
        LastOf(root, Taken(visited, now, rest));
        NothingTakenEnds(visited, now, rest);
      }
    }
  }

  lemma LastOf(t: Timer, rest: seq<Timer>)
    ensures ([t] + rest)[|rest|] == if rest == [] then t else rest[|rest| - 1]
  {
  }

  // A call that takes nothing only settles the cached deadline.
  lemma NothingTakenEnds(s: ShardState, now: int, windows: seq<seq<Visit>>)
    ensures Taken(s, now, windows) == [] <==> !RootDue(s, now)
    ensures Taken(s, now, windows) == [] ==> Processed(s, now, windows).0 == Settled(s)
  {
  }

  /** Inserting lowers the cached deadline to the new one exactly when that is earlier; into a shard
      whose cache is exact, the cache stays exact. */
  lemma AddedDeadline(s: ShardState, t: Timer)
    requires IsHeap(s.heap)
    ensures Added(s, t).nextDeadline <= t.deadline && Added(s, t).nextDeadline <= s.nextDeadline
    ensures Added(s, t).nextDeadline == t.deadline || Added(s, t).nextDeadline == s.nextDeadline
    ensures Exact(s) && t.deadline <= 0x7FFF_FFFF_FFFF_FFFF ==> Exact(Added(s, t))
    ensures s.heap == [] && Exact(s) && t.deadline <= 0x7FFF_FFFF_FFFF_FFFF ==> Added(s, t).nextDeadline == t.deadline
  {
    if Exact(s) && t.deadline <= 0x7FFF_FFFF_FFFF_FFFF {
      var h' := Insert(s.heap, t);
      InsertIsHeap(s.heap, t);
      RootIsMinimumOfAll(h');
      assert h'[0] in multiset(h') && t in multiset(h');
      if s.heap != [] {
        RootIsMinimumOfAll(s.heap);
        assert s.heap[0] in multiset(s.heap) && s.heap[0] in multiset(h');
      }
    }
  }

  class Shard {
    var heap: seq<Timer>
    var nextDeadline: int

    function View(): ShardState
      reads this
    {
      ShardState(heap, nextDeadline)
    }

    constructor ()
      ensures View() == ShardState([], NEVER) && ShardInv(View())
    {
      heap, nextDeadline := [], NEVER;
    }

    method ShardSiftUp(idx: nat)
      requires idx < |heap|
      modifies `heap
      ensures heap == SiftUp(old(heap), idx)
    {
      var i: nat := idx;
      while i > 0
        invariant i < |heap| == |old(heap)|
        invariant SiftUp(heap, i) == SiftUp(old(heap), idx)
      {
        var parent := (i - 1) / 2;
        if heap[parent].deadline <= heap[i].deadline {
          break;
        }
        heap := heap[i := heap[parent]][parent := heap[i]];
        i := parent;
      }
    }

    method ShardSiftDown(idx: nat)
      requires idx < |heap|
      modifies `heap
      ensures heap == SiftDown(old(heap), idx)
    {
      var n, i := |heap|, idx;
      while true
        invariant i < |heap| == n && n == |old(heap)|
        invariant SiftDown(heap, i) == SiftDown(old(heap), idx)
        decreases n - i
      {
        var left, right, smallest := 2 * i + 1, 2 * i + 2, i;
        if left < n && heap[left].deadline < heap[smallest].deadline {
          smallest := left;
        }
        if right < n && heap[right].deadline < heap[smallest].deadline {
          smallest := right;
        }
        if smallest == i {
          break;
        }
        heap := heap[i := heap[smallest]][smallest := heap[i]];
        i := smallest;
      }
    }

    method ShardPopFromHeap()
      modifies `heap
      ensures heap == if old(heap) == [] then [] else PopRoot(old(heap))
    {
      if heap == [] {
        return;
      }
      heap := heap[0 := heap[|heap| - 1]];
      heap := heap[..|heap| - 1];
      if heap != [] {
        ShardSiftDown(0);
      }
    }

    // The part of Schedule under this shard's lock.
    method Add(t: Timer)
      modifies this
      ensures View() == Added(old(View()), t)
    {
      heap := heap + [t];
      ShardSiftUp(|heap| - 1);
      if t.deadline < nextDeadline {
        nextDeadline := t.deadline;
      }
    }

    // The part of Cancel under this shard's lock: a scan for the id.
    method CancelId(id: nat) returns (found: bool)
      modifies `heap
      ensures View() == Marked(old(View()), id)
      ensures found == HasId(old(heap), id)
    {
      var i := 0;
      while i < |heap|
        invariant 0 <= i <= |heap| && heap == old(heap)
        invariant forall j | 0 <= j < i :: heap[j].id != id
      {
        if heap[i].id == id {
          MarkCancelledAt(heap, id, i);
          heap := heap[i := heap[i].(cancelled := true)];
          return true;
        }
        i := i + 1;
      }
      MarkCancelledAbsent(heap, id);
      return false;
    }

    // What happens in the shard while the lock is dropped for a callback.
    method Window(visits: seq<Visit>)
      modifies this
      ensures View() == VisitedBy(old(View()), visits)
    {
      var i := 0;
      while i < |visits|
        invariant 0 <= i <= |visits|
        invariant VisitedBy(View(), visits[i..]) == VisitedBy(old(View()), visits)
      {
        match visits[i] {
          case Schedule(t) => Add(t);
          case Cancel(id) => var _ := CancelId(id);
        }
        assert visits[i..][1..] == visits[i + 1..];
        i := i + 1;
      }
    }

    // One turn of ProcessShard up to the callback.
    method TakeRoot() returns (entry: Timer)
      requires heap != []
      modifies this
      ensures View() == RootTaken(old(View())) && entry == old(heap)[0]
    {
      entry := heap[0];
      ShardPopFromHeap();
      if entry.cancelled {
        return;
      }
      if heap != [] {
        nextDeadline := heap[0].deadline;
      } else {
        nextDeadline := NEVER;
      }
    }

    method ProcessShard(now: int, windows: seq<seq<Visit>>) returns (fired: seq<Timer>)
      modifies this
      ensures var (s, f) := Processed(old(View()), now, windows); View() == s && fired == f
    {
      fired := [];
      var turn := 0;
      assert windows[turn..] == windows;
      while heap != [] && heap[0].deadline <= now
        invariant turn <= |windows|
        invariant Continues(Processed(old(View()), now, windows), fired, Processed(View(), now, windows[turn..]))
        decreases |heap| + Visits(windows[turn..])
      {
        ghost var s, w := View(), windows[turn..];
        var entry := TakeRoot();
        if entry.cancelled {
          assert Processed(s, now, w) == Processed(View(), now, w);
          continue;
        }
        if turn < |windows| {
          assert windows[turn..][1..] == windows[turn + 1..];
          Window(windows[turn]);
          turn := turn + 1;
        }
        TurnCalls(s, now, w);
        ContinuesOn(Processed(old(View()), now, windows), fired, Processed(s, now, w), entry,
                    Processed(View(), now, windows[turn..]));
        fired := fired + [entry];
      }
      if heap != [] {
        nextDeadline := heap[0].deadline;
      }
    }
  }
}
