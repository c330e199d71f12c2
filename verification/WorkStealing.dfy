/**
 The work-stealing deque: a ring of 1024 slots between two packed words, one owner and any
 number of thieves, at the granularity of single loads, stores and CASes.

 `Apply` makes one access of the owner or of one thief; an access that is not the named
 thread's next leaves the state as it is, so any sequence of actions is an interleaving.
 The history part of the state counts the moves of the head (`headCount`), names the tasks
 between head and tail (`contents`), and records the first access that the algorithm does
 not survive (`fault`).
 */
module WorkStealing {
  import opened Options
  import opened Packing
  import opened Weaving

  type Task = nat
  type ThiefId = nat

  const CAPACITY := 1024
  const MAX_STEAL_ATTEMPTS := 3

  // What a thief has loaded in its current attempt.
  datatype ThiefPhase =
    | Starting(attempt: nat)
    | SawHead(attempt: nat, h: Word)
    | SawBoth(attempt: nat, h: Word)
    | SawTask(attempt: nat, h: Word, task: Task)

  datatype OwnerPhase =
    | Resting
    | PushWrote(t: Word, task: Task)           // the slot is written, the tail is not
    | PopSawHead(h: Word)
    | PopSawTail(h: Word, t: Word)
    | PopSawTask(h: Word, t: Word, task: Task)  // about to CAS the head or store the tail
    | PopClaimed(t: Word, task: Task)          // the CAS succeeded

  /** What can go wrong: a push whose tail store makes 1024 tasks, a pop's plain tail store on
      a task that a thief has or is about to take, and a CAS that succeeds on a word from an
      earlier round of the version counter. */
  datatype Fault = Overfull | Contested | StaleCas

  datatype State = State(
    buffer: seq<Task>, head: Word, tail: Word,
    owner: OwnerPhase, thieves: map<ThiefId, ThiefPhase>,
    headCount: nat, contents: seq<Task>, seen: map<ThiefId, nat>, ownerSeen: nat,
    pushed: multiset<Task>, taken: multiset<Task>, fault: Option<Fault>)

  datatype Action =
    | StartPush(task: Task)
    | StartPop
    | OwnerStep
    | ThiefStep(id: ThiefId, spurious: bool)

  function Nulls(n: nat): (r: seq<Task>)
    ensures |r| == n && forall i | 0 <= i < n :: r[i] == 0
  {
    if n == 0 then [] else Nulls(n - 1) + [0]
  }

  function Fresh(): State {
    State(Nulls(CAPACITY), Word(0, 0), Word(0, 0), Resting, map[], 0, [], map[], 0, multiset{}, multiset{}, None)
  }

  // The slot of position n, counted from the queue's creation.
  function Slot(n: nat): nat { n % 1024 }

  // The slot after idx, and the one before it in the source's uint32_t arithmetic.
  function IndexAfter(idx: nat): nat { Slot(idx + 1) }
  function IndexBefore(idx: nat): nat { Slot(Wrap32(idx - 1) + 1024) }

  // A word with the next version and the given index.
  function NextWord(w: Word, idx: nat): Word {
    Word(Wrap32(w.high + 1), idx)
  }

  function Load(buffer: seq<Task>, idx: nat): Task {
    if idx < |buffer| then buffer[idx] else 0
  }

  function Store(buffer: seq<Task>, idx: nat, task: Task): seq<Task> {
    if idx < |buffer| then buffer[idx := task] else buffer
  }

  function Raise(s: State, f: Fault, when: bool): Option<Fault> {
    if s.fault.None? && when then Some(f) else s.fault
  }

  function Rest(q: seq<Task>): seq<Task> { if q == [] then [] else q[1..] }
  function Front(q: seq<Task>): seq<Task> { if q == [] then [] else q[..|q| - 1] }

  // Some thief has seen the current head and a tail beyond it: its CAS will succeed.
  predicate ThiefCommitted(s: State) {
    exists id | id in s.thieves ::
      && (s.thieves[id].SawBoth? || s.thieves[id].SawTask?)
      && id in s.seen && s.seen[id] == s.headCount
  }

  // The last task is not the owner's to take with a plain store.
  predicate LastContested(s: State) {
    s.contents == [] || (|s.contents| == 1 && ThiefCommitted(s))
  }

  function OwnerNext(s: State): State {
    match s.owner
    case Resting => s
    case PushWrote(t, task) =>
      s.(tail := NextWord(t, IndexAfter(t.low)), owner := Resting,
         contents := s.contents + [task], pushed := s.pushed + multiset{task},
         fault := Raise(s, Overfull, |s.contents| >= CAPACITY - 1))
    case PopSawHead(h) =>
      s.(owner := if h.low == s.tail.low then Resting else PopSawTail(h, s.tail))
    case PopSawTail(h, t) =>
      s.(owner := PopSawTask(h, t, Load(s.buffer, IndexBefore(t.low))))
    case PopSawTask(h, t, task) =>
      var idx := IndexBefore(t.low);
      if idx == h.low then
        if s.head == h then
          s.(head := NextWord(h, IndexAfter(idx)), owner := PopClaimed(t, task),
             headCount := s.headCount + 1, contents := Front(s.contents), taken := s.taken + multiset{task})
        else s.(owner := Resting)
      else
        s.(tail := NextWord(t, idx), owner := Resting,
           contents := Front(s.contents), taken := s.taken + multiset{task},
           fault := Raise(s, Contested, LastContested(s)))
    case PopClaimed(t, task) =>
      var idx := IndexBefore(t.low);
      s.(tail := NextWord(t, IndexAfter(idx)), owner := Resting)
  }

  function ThiefNext(s: State, id: ThiefId, spurious: bool): State {
    match (if id in s.thieves then s.thieves[id] else Starting(0))
    case Starting(attempt) =>
      s.(thieves := s.thieves[id := SawHead(attempt, s.head)], seen := s.seen[id := s.headCount])
    case SawHead(attempt, h) =>
      if h.low == s.tail.low then s.(thieves := s.thieves - {id})
      else s.(thieves := s.thieves[id := SawBoth(attempt, h)])
    case SawBoth(attempt, h) =>
      s.(thieves := s.thieves[id := SawTask(attempt, h, Load(s.buffer, h.low))])
    case SawTask(attempt, h, task) =>
      if s.head == h && !spurious then
        s.(head := NextWord(h, IndexAfter(h.low)), thieves := s.thieves - {id},
           headCount := s.headCount + 1, contents := Rest(s.contents), taken := s.taken + multiset{task},
           fault := Raise(s, StaleCas, id !in s.seen || s.seen[id] != s.headCount))
      else if attempt + 1 < MAX_STEAL_ATTEMPTS then
        s.(thieves := s.thieves[id := Starting(attempt + 1)])
      else s.(thieves := s.thieves - {id})
  }

  function Apply(s: State, a: Action): State {
    match a
    case StartPush(task) =>
      if s.owner.Resting? then
        s.(buffer := Store(s.buffer, s.tail.low, task), owner := PushWrote(s.tail, task))
      else s
    case StartPop =>
      if s.owner.Resting? then s.(owner := PopSawHead(s.head), ownerSeen := s.headCount) else s
    case OwnerStep => OwnerNext(s)
    case ThiefStep(id, spurious) => ThiefNext(s, id, spurious)
  }

  function RunFrom(s: State, run: seq<Action>): State
    decreases |run|
  {
    if run == [] then s else RunFrom(Apply(s, run[0]), run[1..])
  }

  function After(run: seq<Action>): State {
    RunFrom(Fresh(), run)
  }

  lemma {:induction false} RunConcat(s: State, a: seq<Action>, b: seq<Action>)
    ensures RunFrom(s, a + b) == RunFrom(RunFrom(s, a), b)
    decreases |a|
  {
    if a == [] {
      assert a + b == b;
    } else {
      assert (a + b)[1..] == a[1..] + b;
      RunConcat(Apply(s, a[0]), a[1..], b);
    }
  }

  lemma RunSnoc(s: State, run: seq<Action>, a: Action)
    ensures RunFrom(s, run + [a]) == Apply(RunFrom(s, run), a)
  {
    RunConcat(s, run, [a]);
    assert RunFrom(RunFrom(s, run), [a]) == RunFrom(Apply(RunFrom(s, run), a), []);
  }

  // ---- The invariant ----

  // The head word after n moves: version and index both count the moves.
  function HeadWord(n: nat): Word {
    Word(Wrap32(n), Slot(n))
  }

  lemma HeadWordMoves(n: nat)
    ensures NextWord(HeadWord(n), IndexAfter(HeadWord(n).low)) == HeadWord(n + 1)
  {
    SlotSteps(n);
    WrapNext(n);
  }

  lemma WrapNext(n: nat)
    ensures Wrap32(Wrap32(n) + 1) == Wrap32(n + 1)
  {
  }

  lemma SlotNext(n: nat)
    ensures Slot(Slot(n) + 1) == Slot(n + 1)
  {
  }

  lemma WrapBefore(idx: nat)
    requires idx < 1024
    ensures IndexBefore(idx) == if idx == 0 then 1023 else idx - 1
  {
    if idx == 0 {
      assert Wrap32(-1) == 0xFFFF_FFFF;
      assert Slot(0xFFFF_FFFF + 1024) == 1023;
    } else {
      assert Wrap32(idx - 1) == idx - 1;
    }
  }

  lemma BackAndForth(idx: nat)
    requires idx < 1024
    ensures IndexAfter(IndexBefore(idx)) == idx
  {
    WrapBefore(idx);
  }

  lemma SlotSteps(n: nat)
    ensures IndexAfter(Slot(n)) == Slot(n + 1)
    ensures n > 0 ==> IndexBefore(Slot(n)) == Slot(n - 1)
  {
    SlotNext(n);
    WrapBefore(Slot(n));
    if n > 0 {
      SlotNext(n - 1);
    }
  }

  lemma SlotsDiffer(a: nat, b: nat)
    requires a < b < a + CAPACITY
    ensures Slot(a) != Slot(b)
  {
  }

  /** A thief's word matches the head exactly when the head has not moved since the load, or
      has moved a multiple of 2^32 times: wrapping around the ring is not enough. */
  lemma WordsMatchIff(m: nat, n: nat)
    requires m <= n
    ensures HeadWord(m) == HeadWord(n) <==> (n - m) % 0x1_0000_0000 == 0
  {
    WrapDifference(m, n);
    if (n - m) % 0x1_0000_0000 == 0 {
      WholeRounds(m, n, (n - m) / 0x1_0000_0000);
    }
  }

  lemma WholeRounds(m: nat, n: nat, k: int)
    requires n - m == k * 0x1_0000_0000
    ensures Slot(n) == Slot(m)
  {
    assert n == m + 1024 * (k * 0x40_0000);
    assert n / 1024 == m / 1024 + k * 0x40_0000;
  }

  // The slots from position n on hold the contents.
  predicate Holds(buffer: seq<Task>, n: nat, contents: seq<Task>) {
    && |buffer| == CAPACITY && |contents| < CAPACITY
    && forall k | 0 <= k < |contents| :: buffer[Slot(n + k)] == contents[k]
  }

  lemma HoldsAfterWrite(buffer: seq<Task>, n: nat, contents: seq<Task>, task: Task)
    requires Holds(buffer, n, contents)
    ensures Holds(Store(buffer, Slot(n + |contents|), task), n, contents)
    ensures Load(Store(buffer, Slot(n + |contents|), task), Slot(n + |contents|)) == task
  {
    forall k | 0 <= k < |contents|
      ensures Store(buffer, Slot(n + |contents|), task)[Slot(n + k)] == contents[k]
    {
      SlotsDiffer(n + k, n + |contents|);
    }
  }

  lemma HoldsAfterPush(buffer: seq<Task>, n: nat, contents: seq<Task>, task: Task)
    requires Holds(buffer, n, contents) && |contents| < CAPACITY - 1
    requires Load(buffer, Slot(n + |contents|)) == task
    ensures Holds(buffer, n, contents + [task])
  {
  }

  lemma HoldsAfterPop(buffer: seq<Task>, n: nat, contents: seq<Task>)
    requires Holds(buffer, n, contents) && contents != []
    ensures Holds(buffer, n, Front(contents)) && buffer[Slot(n + |contents| - 1)] == contents[|contents| - 1]
    ensures Holds(buffer, n + 1, Rest(contents)) && buffer[Slot(n)] == contents[0]
  {
    forall k | 0 <= k < |contents| - 1 ensures buffer[Slot(n + 1 + k)] == Rest(contents)[k] {
      assert buffer[Slot(n + (k + 1))] == contents[k + 1];
    }
    assert buffer[Slot(n + 0)] == contents[0];
  }

  predicate RingOk(s: State) {
    && Holds(s.buffer, s.headCount, s.contents)
    && s.head == HeadWord(s.headCount)
    && s.tail.low == Slot(s.headCount + |s.contents|)
  }

  predicate ThiefOk(s: State, id: ThiefId)
    requires id in s.thieves
  {
    var p := s.thieves[id];
    !p.Starting? ==>
      && id in s.seen && s.seen[id] <= s.headCount && p.h == HeadWord(s.seen[id])
      && (!p.SawHead? && s.seen[id] == s.headCount ==> s.contents != [])
      && (p.SawTask? && s.seen[id] == s.headCount ==> p.task == s.contents[0])
  }

  // The position of the tail, counted as the head is.
  function TailCount(s: State): nat {
    s.headCount + |s.contents|
  }

  predicate OwnerSeenOk(s: State, h: Word) {
    h == HeadWord(s.ownerSeen) && s.ownerSeen <= s.headCount && TailCount(s) - s.ownerSeen < CAPACITY
  }

  predicate OwnerOk(s: State) {
    match s.owner
    case Resting => true
    case PushWrote(t, task) =>
      t == s.tail && Load(s.buffer, t.low) == task
    case PopSawHead(h) => OwnerSeenOk(s, h)
    case PopSawTail(h, t) => OwnerSeenOk(s, h) && t == s.tail && s.ownerSeen < TailCount(s)
    case PopSawTask(h, t, task) =>
      OwnerSeenOk(s, h) && t == s.tail && s.ownerSeen < TailCount(s) &&
      |s.buffer| == CAPACITY && task == s.buffer[Slot(TailCount(s) - 1)]
    case PopClaimed(t, _) => t == s.tail && s.contents == []
  }

  predicate Good(s: State) {
    && RingOk(s)
    && (forall id | id in s.thieves :: ThiefOk(s, id))
    && OwnerOk(s)
    && s.pushed == s.taken + multiset(s.contents)
  }

  predicate Inv(s: State) {
    s.fault.None? ==> Good(s)
  }

  lemma ThievesStayOk(s: State, s': State)
    requires forall id | id in s.thieves :: ThiefOk(s, id)
    requires s'.thieves == s.thieves && s'.seen == s.seen && s'.headCount == s.headCount
    requires s.contents <= s'.contents || (|s.contents| > 1 && s'.contents == Front(s.contents))
             || (|s.contents| == 1 && s'.contents == [] && !ThiefCommitted(s))
    ensures forall id | id in s'.thieves :: ThiefOk(s', id)
  {
    forall id | id in s'.thieves ensures ThiefOk(s', id) {
      assert ThiefOk(s, id);
    }
  }

  lemma StartPopKeepsGood(s: State)
    requires Good(s)
    ensures Good(Apply(s, StartPop))
  {
    ThievesStayOk(s, Apply(s, StartPop));
  }

  lemma StartPushKeepsGood(s: State, task: Task)
    requires Good(s) && s.owner.Resting?
    ensures Good(Apply(s, StartPush(task)))
  {
    HoldsAfterWrite(s.buffer, s.headCount, s.contents, task);
    ThievesStayOk(s, Apply(s, StartPush(task)));
  }

  lemma PushKeepsRing(s: State)
    requires RingOk(s) && s.owner.PushWrote? && s.owner.t == s.tail && |s.contents| < CAPACITY - 1
    requires Load(s.buffer, s.tail.low) == s.owner.task
    ensures RingOk(OwnerNext(s))
  {
    SlotSteps(TailCount(s));
    HoldsAfterPush(s.buffer, s.headCount, s.contents, s.owner.task);
  }

  lemma PushKeepsGood(s: State)
    requires Good(s) && s.owner.PushWrote? && |s.contents| < CAPACITY - 1
    ensures Good(OwnerNext(s))
  {
    var s' := OwnerNext(s);
    PushKeepsRing(s);
    ThievesStayOk(s, s');
  }

  // Pop reports an empty deque only when it is empty.
  lemma PopSeesEmptyRight(s: State)
    requires Good(s) && s.owner.PopSawHead?
    ensures OwnerNext(s).owner.Resting? <==> s.ownerSeen == TailCount(s)
    ensures OwnerNext(s).owner.Resting? ==> s.contents == []
  {
    if s.ownerSeen < TailCount(s) {
      SlotsDiffer(s.ownerSeen, TailCount(s));
    }
  }

  lemma PopLoadKeepsGood(s: State)
    requires Good(s) && (s.owner.PopSawHead? || s.owner.PopSawTail?)
    ensures Good(OwnerNext(s))
  {
    if s.owner.PopSawHead? {
      PopSeesEmptyRight(s);
    } else {
      SlotSteps(TailCount(s));
    }
    ThievesStayOk(s, OwnerNext(s));
  }

  lemma ResetKeepsRing(s: State)
    requires RingOk(s) && s.owner.PopClaimed? && s.owner.t == s.tail
    ensures RingOk(OwnerNext(s))
  {
    BackAndForth(s.tail.low);
  }

  lemma PopResetKeepsGood(s: State)
    requires Good(s) && s.owner.PopClaimed?
    ensures Good(OwnerNext(s))
  {
    ResetKeepsRing(s);
    ThievesStayOk(s, OwnerNext(s));
  }

  // A move of the head makes every word that a thief has loaded stale.
  lemma ThievesOkAfterMove(s: State, s': State)
    requires forall id | id in s.thieves :: ThiefOk(s, id)
    requires s'.headCount == s.headCount + 1 && s'.seen == s.seen
    requires forall id | id in s'.thieves :: id in s.thieves && s'.thieves[id] == s.thieves[id]
    ensures forall id | id in s'.thieves :: ThiefOk(s', id)
  {
    forall id | id in s'.thieves ensures ThiefOk(s', id) {
      assert ThiefOk(s, id);
    }
  }

  // The owner does not notice what the thieves do at the other end.
  lemma OwnerStaysOk(s: State, s': State)
    requires OwnerOk(s)
    requires s'.owner == s.owner && s'.ownerSeen == s.ownerSeen && s'.tail == s.tail && s'.buffer == s.buffer
    requires TailCount(s') == TailCount(s) && s'.headCount >= s.headCount
    ensures OwnerOk(s')
  {
  }

  lemma SlotsNear(seen: nat, last: nat)
    requires seen <= last < seen + CAPACITY
    ensures Slot(seen) == Slot(last) <==> seen == last
  {
    if seen < last {
      SlotsDiffer(seen, last);
    }
  }

  lemma WordsNear(m: nat, n: nat)
    requires m <= n <= m + 1
    ensures HeadWord(m) == HeadWord(n) <==> m == n
  {
    SlotsNear(m, n);
  }

  // At the claim, the word names the last task; the head is still there or just past it.
  lemma ClaimPosition(s: State)
    requires Good(s) && s.owner.PopSawTask?
    ensures IndexBefore(s.owner.t.low) == s.owner.h.low <==> s.ownerSeen == TailCount(s) - 1
    ensures s.ownerSeen == TailCount(s) - 1 ==> (s.head == s.owner.h <==> s.headCount == s.ownerSeen)
  {
    SlotSteps(TailCount(s));
    SlotsNear(s.ownerSeen, TailCount(s) - 1);
    if s.ownerSeen == TailCount(s) - 1 {
      WordsNear(s.ownerSeen, s.headCount);
    }
  }

  predicate NothingMoves(s: State, s': State) {
    s'.contents == s.contents && s'.pushed == s.pushed && s'.taken == s.taken
  }

  predicate PushesBack(s: State, s': State, x: Task) {
    s'.contents == s.contents + [x] && s'.pushed == s.pushed + multiset{x} && s'.taken == s.taken
  }

  predicate TakesBack(s: State, s': State, x: Task) {
    s.contents == s'.contents + [x] && s'.pushed == s.pushed && s'.taken == s.taken + multiset{x}
  }

  predicate TakesFront(s: State, s': State, x: Task) {
    s.contents == [x] + s'.contents && s'.pushed == s.pushed && s'.taken == s.taken + multiset{x}
  }

  // The owner's claim of the last task succeeds unless a thief has taken the task.
  lemma ClaimTakesLast(s: State)
    requires Good(s) && s.owner.PopSawTask? && IndexBefore(s.owner.t.low) == s.owner.h.low
    ensures s.head == s.owner.h ==> s.contents == [s.owner.task] && TakesBack(s, OwnerNext(s), s.owner.task)
    ensures s.head != s.owner.h ==> s.contents == [] && NothingMoves(s, OwnerNext(s))
  {
    ClaimPosition(s);
    if s.head == s.owner.h {
      HoldsAfterPop(s.buffer, s.headCount, s.contents);
    }
  }

  lemma ClaimKeepsRing(s: State)
    requires RingOk(s) && s.owner.PopSawTask? && IndexBefore(s.owner.t.low) == s.owner.h.low
    requires s.head == s.owner.h && |s.contents| == 1
    ensures RingOk(OwnerNext(s))
  {
    HeadWordMoves(s.headCount);
  }

  lemma PopClaimKeepsGood(s: State)
    requires Good(s) && s.owner.PopSawTask? && IndexBefore(s.owner.t.low) == s.owner.h.low
    ensures Good(OwnerNext(s))
  {
    ClaimTakesLast(s);
    if s.head == s.owner.h {
      ClaimedKeepsGood(s);
    } else {
      ThievesStayOk(s, OwnerNext(s));
    }
  }

  lemma ClaimedKeepsGood(s: State)
    requires Good(s) && s.owner.PopSawTask? && IndexBefore(s.owner.t.low) == s.owner.h.low && s.head == s.owner.h
    requires s.contents == [s.owner.task] && TakesBack(s, OwnerNext(s), s.owner.task)
    ensures Good(OwnerNext(s))
  {
    var s' := OwnerNext(s);
    ClaimKeepsRing(s);
    ThievesOkAfterMove(s, s');
    TakenConserves(s, s', s.owner.task);
    assert s'.contents == [];
  }

  lemma TakenConserves(s: State, s': State, x: Task)
    requires s.pushed == s.taken + multiset(s.contents) && TakesBack(s, s', x)
    ensures s'.pushed == s'.taken + multiset(s'.contents)
  {
    assert multiset(s'.contents + [x]) == multiset(s'.contents) + multiset{x};
  }

  // The owner's plain store takes the last task, provided it is not contested.
  lemma StoreTakesLast(s: State)
    requires Good(s) && s.owner.PopSawTask? && IndexBefore(s.owner.t.low) != s.owner.h.low
    requires !LastContested(s)
    ensures TakesBack(s, OwnerNext(s), s.owner.task)
    ensures Holds(s.buffer, s.headCount, OwnerNext(s).contents)
  {
    HoldsAfterPop(s.buffer, s.headCount, s.contents);
    assert s.contents == Front(s.contents) + [s.owner.task];
  }

  lemma StoreKeepsRing(s: State)
    requires RingOk(s) && s.owner.PopSawTask? && IndexBefore(s.owner.t.low) != s.owner.h.low
    requires s.owner.t == s.tail && s.contents != [] && Holds(s.buffer, s.headCount, Front(s.contents))
    ensures RingOk(OwnerNext(s))
  {
    SlotSteps(TailCount(s));
  }

  lemma PopStoreKeepsGood(s: State)
    requires Good(s) && s.owner.PopSawTask? && IndexBefore(s.owner.t.low) != s.owner.h.low
    requires !LastContested(s)
    ensures Good(OwnerNext(s))
  {
    var s' := OwnerNext(s);
    StoreTakesLast(s);
    StoreKeepsRing(s);
    ThievesStayOk(s, s');
  }

  // One thief's loads do not concern the others.
  lemma OthersStayOk(s: State, s': State, id: ThiefId)
    requires forall i | i in s.thieves :: ThiefOk(s, i)
    requires s'.headCount == s.headCount && s'.contents == s.contents
    requires forall i | i in s'.thieves && i != id ::
               i in s.thieves && s'.thieves[i] == s.thieves[i] && (i in s.seen ==> i in s'.seen && s'.seen[i] == s.seen[i])
    requires id in s'.thieves ==> ThiefOk(s', id)
    ensures forall i | i in s'.thieves :: ThiefOk(s', i)
  {
    forall i | i in s'.thieves && i != id ensures ThiefOk(s', i) {
      assert ThiefOk(s, i);
    }
  }

  // What a thief's load finds, by where it stands.
  lemma LoadFinds(s: State, id: ThiefId)
    requires Good(s) && id in s.thieves && id in s.seen && s.seen[id] == s.headCount
    ensures s.thieves[id].SawHead? ==> (s.contents == [] ==> s.thieves[id].h.low == s.tail.low)
    ensures s.thieves[id].SawBoth? ==> s.contents != [] && Load(s.buffer, s.thieves[id].h.low) == s.contents[0]
  {
    assert ThiefOk(s, id);
    if s.thieves[id].SawBoth? {
      HoldsAfterPop(s.buffer, s.headCount, s.contents);
    }
  }

  lemma ThiefAfterLoad(s: State, id: ThiefId, spurious: bool)
    requires Good(s) && (id in s.thieves ==> !s.thieves[id].SawTask?)
    ensures var s' := ThiefNext(s, id, spurious); id in s'.thieves ==> ThiefOk(s', id)
  {
    if id in s.thieves {
      assert ThiefOk(s, id);
      if id in s.seen && s.seen[id] == s.headCount {
        LoadFinds(s, id);
      }
    }
  }

  // A step that changes nothing but what one thief has loaded.
  lemma GoodAfterLoad(s: State, s': State, id: ThiefId)
    requires Good(s) && s' == s.(thieves := s'.thieves, seen := s'.seen)
    requires forall i | i in s'.thieves && i != id ::
               i in s.thieves && s'.thieves[i] == s.thieves[i] && (i in s.seen ==> i in s'.seen && s'.seen[i] == s.seen[i])
    requires id in s'.thieves ==> ThiefOk(s', id)
    ensures Good(s')
  {
    OthersStayOk(s, s', id);
    OwnerStaysOk(s, s');
  }

  lemma ThiefLoadKeepsGood(s: State, id: ThiefId, spurious: bool)
    requires Good(s) && (id in s.thieves ==> !s.thieves[id].SawTask?)
    ensures Good(ThiefNext(s, id, spurious))
  {
    ThiefAfterLoad(s, id, spurious);
    GoodAfterLoad(s, ThiefNext(s, id, spurious), id);
  }

  lemma FrontTask(s: State, id: ThiefId)
    requires Good(s) && id in s.thieves && s.thieves[id].SawTask? && s.seen[id] == s.headCount
    ensures s.contents != [] && s.contents == [s.thieves[id].task] + Rest(s.contents)
    ensures multiset(s.contents) == multiset{s.thieves[id].task} + multiset(Rest(s.contents))
    ensures Holds(s.buffer, s.headCount + 1, Rest(s.contents))
  {
    assert ThiefOk(s, id);
    HoldsAfterPop(s.buffer, s.headCount, s.contents);
    assert s.contents == [s.contents[0]] + Rest(s.contents);
  }

  lemma StealKeepsRing(s: State, id: ThiefId)
    requires RingOk(s) && id in s.thieves && s.thieves[id].SawTask? && s.head == s.thieves[id].h
    requires s.contents != [] && Holds(s.buffer, s.headCount + 1, Rest(s.contents))
    ensures RingOk(ThiefNext(s, id, false))
  {
    HeadWordMoves(s.headCount);
  }

  // A thief's CAS takes the front task, provided the head has not come round to its word.
  lemma StealKeepsGood(s: State, id: ThiefId)
    requires Good(s) && id in s.thieves && s.thieves[id].SawTask?
    requires s.head == s.thieves[id].h && s.seen[id] == s.headCount
    ensures Good(ThiefNext(s, id, false))
    ensures s.contents == [s.thieves[id].task] + ThiefNext(s, id, false).contents
  {
    var s' := ThiefNext(s, id, false);
    FrontTask(s, id);
    StealKeepsRing(s, id);
    ThievesOkAfterMove(s, s');
    OwnerStaysOk(s, s');
  }

  lemma StealFailsKeepsGood(s: State, id: ThiefId, spurious: bool)
    requires Good(s) && id in s.thieves && s.thieves[id].SawTask?
    requires s.head != s.thieves[id].h || spurious
    ensures Good(ThiefNext(s, id, spurious))
  {
    var s' := ThiefNext(s, id, spurious);
    OthersStayOk(s, s', id);
    OwnerStaysOk(s, s');
  }

  predicate PlainStore(s: State) {
    s.owner.PopSawTask? && IndexBefore(s.owner.t.low) != s.owner.h.low
  }

  lemma OwnerKeepsInv(s: State)
    requires Good(s) && s.fault.None? && OwnerNext(s).fault.None?
    ensures Good(OwnerNext(s))
  {
    match s.owner
    case Resting =>
    case PushWrote(_, _) => PushKeepsGood(s);
    case PopSawHead(_) => PopLoadKeepsGood(s);
    case PopSawTail(_, _) => PopLoadKeepsGood(s);
    case PopSawTask(_, _, _) =>
      if PlainStore(s) { PopStoreKeepsGood(s); } else { PopClaimKeepsGood(s); }
    case PopClaimed(_, _) => PopResetKeepsGood(s);
  }

  lemma ThiefKeepsInv(s: State, id: ThiefId, spurious: bool)
    requires Good(s) && s.fault.None? && ThiefNext(s, id, spurious).fault.None?
    ensures Good(ThiefNext(s, id, spurious))
  {
    if id !in s.thieves || !s.thieves[id].SawTask? {
      ThiefLoadKeepsGood(s, id, spurious);
    } else {
      assert ThiefOk(s, id);
      if s.head == s.thieves[id].h && !spurious {
        StealKeepsGood(s, id);
      } else {
        StealFailsKeepsGood(s, id, spurious);
      }
    }
  }

  lemma FaultStays(s: State, a: Action)
    ensures s.fault.Some? ==> Apply(s, a).fault == s.fault
  {
  }

  lemma ApplyKeepsInv(s: State, a: Action)
    requires Inv(s)
    ensures Inv(Apply(s, a))
  {
    FaultStays(s, a);
    if Apply(s, a).fault.None? {
      match a
      case StartPush(task) => if s.owner.Resting? { StartPushKeepsGood(s, task); }
      case StartPop => StartPopKeepsGood(s);
      case OwnerStep => OwnerKeepsInv(s);
      case ThiefStep(id, spurious) => ThiefKeepsInv(s, id, spurious);
    }
  }

  lemma {:induction false} InvAlways(s: State, run: seq<Action>)
    requires Inv(s)
    ensures Inv(RunFrom(s, run))
    decreases |run|
  {
    if run != [] {
      ApplyKeepsInv(s, run[0]);
      InvAlways(Apply(s, run[0]), run[1..]);
    }
  }

  // ---- What holds in every interleaving ----

  /** Unless one of the three faults occurs, every pushed task is either still in the deque
      or has been taken, and taken no more often than pushed, by the owner or by any of the
      thieves. */
  lemma ExactlyOnce(run: seq<Action>)
    ensures var s := After(run);
            s.fault.None? ==> s.pushed == s.taken + multiset(s.contents) && s.taken <= s.pushed
  {
    InvAlways(Fresh(), run);
  }

  // One access of the owner, on the sequence.
  predicate OwnerRefines(s: State, s': State) {
    match s.owner
    case PushWrote(_, task) => PushesBack(s, s', task)
    case PopSawTask(_, _, task) => TakesBack(s, s', task) || (NothingMoves(s, s') && s.contents == [])
    case PopSawHead(_) => NothingMoves(s, s') && (s'.owner.Resting? ==> s.contents == [])
    case _ => NothingMoves(s, s')
  }

  // One access of a thief, on the sequence.
  predicate ThiefRefines(s: State, s': State, id: ThiefId) {
    NothingMoves(s, s') ||
    (id in s.thieves && s.thieves[id].SawTask? && TakesFront(s, s', s.thieves[id].task))
  }

  lemma OwnerStepRefines(s: State)
    requires Good(s) && s.fault.None? && OwnerNext(s).fault.None?
    ensures OwnerRefines(s, OwnerNext(s))
  {
    match s.owner
    case PopSawHead(_) => PopSeesEmptyRight(s);
    case PopSawTask(_, _, _) =>
      if PlainStore(s) { StoreTakesLast(s); } else { ClaimTakesLast(s); }
    case _ =>
  }

  lemma ThiefStepRefines(s: State, id: ThiefId, spurious: bool)
    requires Good(s) && s.fault.None? && ThiefNext(s, id, spurious).fault.None?
    ensures ThiefRefines(s, ThiefNext(s, id, spurious), id)
  {
    if id in s.thieves && s.thieves[id].SawTask? && s.head == s.thieves[id].h && !spurious {
      FrontTask(s, id);
    }
  }

  /** The deque refines a sequence: an access either changes nothing there, or it is the one
      at which a push appends, a pop removes the last task, or a steal removes the first,
      and the task that the call returns is the one removed. Pop reports an empty deque only
      when it is empty. */
  lemma RefinesSequence(run: seq<Action>, a: Action)
    requires Apply(After(run), a).fault.None?
    ensures var s, s' := After(run), Apply(After(run), a);
            match a
            case OwnerStep => OwnerRefines(s, s')
            case ThiefStep(id, _) => ThiefRefines(s, s', id)
            case _ => NothingMoves(s, s')
  {
    InvAlways(Fresh(), run);
    FaultStays(After(run), a);
    match a
    case OwnerStep => OwnerStepRefines(After(run));
    case ThiefStep(id, spurious) => ThiefStepRefines(After(run), id, spurious);
    case _ =>
  }

  // A thief's CAS on a word that the head has left and come round to again.
  predicate StaleSuccess(s: State, a: Action) {
    && a.ThiefStep? && !a.spurious && a.id in s.thieves && s.thieves[a.id].SawTask? && a.id in s.seen
    && s.seen[a.id] < s.headCount && (s.headCount - s.seen[a.id]) % 0x1_0000_0000 == 0
  }

  lemma ThiefFaults(s: State, a: Action)
    requires Good(s) && s.fault.None? && a.ThiefStep?
    ensures Apply(s, a).fault == if StaleSuccess(s, a) then Some(StaleCas) else None
  {
    if a.id in s.thieves && s.thieves[a.id].SawTask? {
      assert ThiefOk(s, a.id);
      WordsMatchIff(s.seen[a.id], s.headCount);
    }
  }

  lemma OwnerFaults(s: State, a: Action)
    requires |s.contents| < CAPACITY && s.fault.None? && !a.ThiefStep?
    ensures Apply(s, a).fault ==
      (if a.OwnerStep? && s.owner.PushWrote? && |s.contents| == CAPACITY - 1 then Some(Overfull)
       else if a.OwnerStep? && PlainStore(s) && LastContested(s) then Some(Contested)
       else None)
  {
  }

  /** Exactly when each fault occurs. A push faults when its tail store makes 1024 tasks, whatever
      it found when it wrote the slot; a pop's plain store,
      when a thief has taken or is committed to the last task; and a thief's CAS succeeds
      on a stale word exactly when the head has meanwhile moved a positive multiple of 2^32
      times, however often the ring index has wrapped. */
  lemma FaultsExactly(run: seq<Action>, a: Action)
    requires After(run).fault.None?
    ensures var s := After(run);
            Apply(s, a).fault ==
              (if a.OwnerStep? && s.owner.PushWrote? && |s.contents| == CAPACITY - 1 then Some(Overfull)
               else if a.OwnerStep? && PlainStore(s) && LastContested(s) then Some(Contested)
               else if StaleSuccess(s, a) then Some(StaleCas)
               else None)
  {
    InvAlways(Fresh(), run);
    if a.ThiefStep? {
      ThiefFaults(After(run), a);
    } else {
      OwnerFaults(After(run), a);
    }
  }

  // No thief moves while a call of the owner is under way.
  predicate OwnerUninterrupted(s: State, run: seq<Action>)
    decreases |run|
  {
    run == [] ||
    ((s.owner.Resting? || !run[0].ThiefStep?) && OwnerUninterrupted(Apply(s, run[0]), run[1..]))
  }

  predicate PopIsCurrent(s: State) {
    s.owner.PopSawHead? || s.owner.PopSawTail? || s.owner.PopSawTask? ==> s.ownerSeen == s.headCount
  }

  lemma StepStaysCurrent(s: State, a: Action)
    requires Inv(s) && PopIsCurrent(s) && s.fault != Some(Contested) && (s.owner.Resting? || !a.ThiefStep?)
    ensures PopIsCurrent(Apply(s, a)) && Apply(s, a).fault != Some(Contested)
  {
    if a.OwnerStep? && s.fault.None? && PlainStore(s) {
      ClaimPosition(s);
      assert |s.contents| >= 2;
    }
  }

  lemma {:induction false} UninterruptedNotContested(s: State, run: seq<Action>)
    requires Inv(s) && PopIsCurrent(s) && s.fault != Some(Contested) && OwnerUninterrupted(s, run)
    ensures RunFrom(s, run).fault != Some(Contested)
    decreases |run|
  {
    if run != [] {
      ApplyKeepsInv(s, run[0]);
      StepStaysCurrent(s, run[0]);
      UninterruptedNotContested(Apply(s, run[0]), run[1..]);
    }
  }

  /** With the owner's calls uninterrupted and any number of thieves at single accesses in
      between, no pop's store is contested: every pushed task is in the deque or has been taken,
      exactly once, unless a push makes 1024 tasks or a thief's word is 2^32 moves old. */
  lemma ExactlyOnceWithAtomicOwner(run: seq<Action>)
    requires OwnerUninterrupted(Fresh(), run)
    ensures var s := After(run);
      (s.fault.None? ==> s.pushed == s.taken + multiset(s.contents)) && s.fault != Some(Contested)
  {
    UninterruptedNotContested(Fresh(), run);
    InvAlways(Fresh(), run);
  }

  lemma SubsetIsSmaller(a: multiset<Task>, b: multiset<Task>)
    requires a <= b
    ensures |a| <= |b|
  {
    assert b == a + (b - a);
  }

  // The committed thief goes on, and takes what the owner has taken as well.
  lemma CommittedThiefTakes(s: State, id: ThiefId) returns (after: seq<Action>)
    requires id in s.thieves && (s.thieves[id].SawBoth? || s.thieves[id].SawTask?) && s.thieves[id].h == s.head
    ensures |after| <= 2
    ensures |RunFrom(s, after).taken| == |s.taken| + 1 && RunFrom(s, after).pushed == s.pushed
  {
    after := [ThiefStep(id, false)];
    var s2 := ThiefNext(s, id, false);
    assert RunFrom(s, after) == RunFrom(s2, after[1..]) == s2;
    if s.thieves[id].SawBoth? {
      after := [ThiefStep(id, false), ThiefStep(id, false)];
      assert after[1..] == [ThiefStep(id, false)];
      assert RunFrom(s2, after[1..]) == RunFrom(ThiefNext(s2, id, false), after[1..][1..]) == ThiefNext(s2, id, false);
    }
  }

  /** A contested store is fatal: at once, or after at most two more accesses of the
      committed thief, more tasks have been taken than were pushed. So the owner's plain
      store is safe exactly when the last task is not contested. */
  lemma ContestedIsFatal(before: seq<Action>) returns (after: seq<Action>)
    requires After(before).fault.None? && PlainStore(After(before)) && LastContested(After(before))
    ensures var s := RunFrom(OwnerNext(After(before)), after);
            !(s.taken <= s.pushed) && |after| <= 2
  {
    InvAlways(Fresh(), before);
    var s := After(before);
    var s1 := OwnerNext(s);
    after := [];
    if s.contents != [] {
      var id :| id in s.thieves && (s.thieves[id].SawBoth? || s.thieves[id].SawTask?)
        && id in s.seen && s.seen[id] == s.headCount;
      assert ThiefOk(s, id);
      after := CommittedThiefTakes(s1, id);
    }
    assert |s1.taken| == |s.taken| + 1 && |s.pushed| == |s.taken| + |s.contents|;
    var s2 := RunFrom(s1, after);
    if s2.taken <= s2.pushed {
      SubsetIsSmaller(s2.taken, s2.pushed);
    }
  }

  lemma TwoSteps(s: State, a: Action, b: Action, rest: seq<Action>)
    ensures RunFrom(s, [a, b] + rest) == RunFrom(Apply(Apply(s, a), b), rest)
  {
    var run := [a, b] + rest;
    assert run[1..] == [b] + rest && run[1..][1..] == rest;
  }

  // A push onto a deque with room.
  lemma PushTwoSteps(s: State, task: Task, rest: seq<Action>)
    requires s.owner.Resting?
    ensures RunFrom(s, [StartPush(task), OwnerStep] + rest) == RunFrom(OwnerNext(Apply(s, StartPush(task))), rest)
  {
    TwoSteps(s, StartPush(task), OwnerStep, rest);
  }

  lemma PushTwo(s: State)
    requires s == OwnerNext(Apply(OwnerNext(Apply(Fresh(), StartPush(7))), StartPush(8)))
    ensures s.owner.Resting? && s.head == Word(0, 0) && s.tail == Word(2, 2) && s.thieves == map[] && s.headCount == 0
    ensures s.contents == [7, 8] && s.fault.None? && |s.buffer| == CAPACITY && s.buffer[1] == 8
  {
  }

  lemma PopReadsSecond(s: State)
    requires s.owner.Resting? && s.head == Word(0, 0) && s.tail == Word(2, 2) && |s.buffer| == CAPACITY && s.buffer[1] == 8
    ensures var s' := OwnerNext(OwnerNext(Apply(s, StartPop)));
      && s'.owner == PopSawTask(Word(0, 0), Word(2, 2), 8)
      && s' == s.(owner := s'.owner, ownerSeen := s'.ownerSeen)
  {
    WrapBefore(2);
  }

  lemma StealsFirst(s: State)
    requires s.head == Word(0, 0) && s.tail == Word(2, 2) && s.thieves == map[] && s.headCount == 0
    requires s.contents == [7, 8] && s.fault.None?
    ensures var s' := ThiefNext(ThiefNext(ThiefNext(ThiefNext(s, 0, false), 0, false), 0, false), 0, false);
      && s'.owner == s.owner && s'.tail == s.tail && s'.fault.None? && s'.thieves == map[]
      && s'.head == Word(1, 1) && s'.contents == [8] && s'.headCount == 1
  {
  }

  lemma ThiefCommits(s: State, id: ThiefId)
    requires id !in s.thieves && s.head.low != s.tail.low
    ensures var s' := ThiefNext(ThiefNext(s, id, false), id, false);
      && s'.owner == s.owner && s'.contents == s.contents && s'.fault == s.fault && s'.head == s.head && s'.tail == s.tail
      && ThiefCommitted(s')
  {
    var s' := ThiefNext(ThiefNext(s, id, false), id, false);
    assert id in s'.thieves && s'.thieves[id].SawBoth? && id in s'.seen && s'.seen[id] == s'.headCount;
  }

  lemma StoreContests(s: State)
    requires s.owner == PopSawTask(Word(0, 0), Word(2, 2), 8) && |s.contents| == 1 && ThiefCommitted(s) && s.fault.None?
    ensures PlainStore(s) && LastContested(s) && OwnerNext(s).fault == Some(Contested)
  {
    WrapBefore(2);
  }

  /** It happens: two pushes, a pop that has read the second task, a thief that steals the first,
      and another that is committed to the second when the pop stores the tail past it. */
  lemma ContestedHappens(pushes: seq<Action>, pop: seq<Action>, steal: seq<Action>, look: seq<Action>)
    requires pushes == [StartPush(7), OwnerStep] + [StartPush(8), OwnerStep] && pop == [StartPop, OwnerStep] + [OwnerStep]
    requires steal == [ThiefStep(0, false), ThiefStep(0, false)] + [ThiefStep(0, false), ThiefStep(0, false)]
    requires look == [ThiefStep(1, false), ThiefStep(1, false)]
    ensures var s := After(pushes + pop + steal + look);
      s.fault.None? && PlainStore(s) && LastContested(s) && OwnerNext(s).fault == Some(Contested)
  {
    var s1 := RunFrom(Fresh(), pushes);
    var s2 := RunFrom(s1, pop);
    var s3 := RunFrom(s2, steal);
    RunConcat(Fresh(), pushes, pop);
    RunConcat(Fresh(), pushes + pop, steal);
    RunConcat(Fresh(), pushes + pop + steal, look);
    PushesRun(pushes, s1);
    PopRun(s1, pop, s2);
    StealRun(s2, steal, s3);
    assert look == look + [];
    TwoSteps(s3, look[0], look[1], []);
    ThiefCommits(s3, 1);
    StoreContests(RunFrom(s3, look));
  }

  lemma PushesRun(run: seq<Action>, s: State)
    requires run == [StartPush(7), OwnerStep] + [StartPush(8), OwnerStep] && s == RunFrom(Fresh(), run)
    ensures s.owner.Resting? && s.head == Word(0, 0) && s.tail == Word(2, 2) && s.thieves == map[] && s.headCount == 0
    ensures s.contents == [7, 8] && s.fault.None? && |s.buffer| == CAPACITY && s.buffer[1] == 8
  {
    PushTwoSteps(Fresh(), 7, [StartPush(8), OwnerStep]);
    var s1 := OwnerNext(Apply(Fresh(), StartPush(7)));
    PushTwoSteps(s1, 8, []);
    assert [StartPush(8), OwnerStep] + [] == [StartPush(8), OwnerStep];
    PushTwo(s);
  }

  lemma PopRun(s: State, run: seq<Action>, s': State)
    requires run == [StartPop, OwnerStep] + [OwnerStep] && s' == RunFrom(s, run)
    requires s.owner.Resting? && s.head == Word(0, 0) && s.tail == Word(2, 2) && |s.buffer| == CAPACITY && s.buffer[1] == 8
    ensures s'.owner == PopSawTask(Word(0, 0), Word(2, 2), 8) && s' == s.(owner := s'.owner, ownerSeen := s'.ownerSeen)
  {
    TwoSteps(s, StartPop, OwnerStep, [OwnerStep]);
    var s2 := Apply(Apply(s, StartPop), OwnerStep);
    assert RunFrom(s2, [OwnerStep]) == RunFrom(OwnerNext(s2), []);
    PopReadsSecond(s);
  }

  lemma StealRun(s: State, run: seq<Action>, s': State)
    requires run == [ThiefStep(0, false), ThiefStep(0, false)] + [ThiefStep(0, false), ThiefStep(0, false)] && s' == RunFrom(s, run)
    requires s.head == Word(0, 0) && s.tail == Word(2, 2) && s.thieves == map[] && s.headCount == 0
    requires s.contents == [7, 8] && s.fault.None?
    ensures s'.owner == s.owner && s'.tail == s.tail && s'.fault.None? && s'.thieves == map[]
    ensures s'.head == Word(1, 1) && s'.contents == [8] && s'.headCount == 1
  {
    var a := ThiefStep(0, false);
    TwoSteps(s, a, a, [a, a]);
    TwoSteps(Apply(Apply(s, a), a), a, a, []);
    assert [a, a] + [] == [a, a];
    StealsFirst(s);
  }

  lemma RingFullWraps(n: nat, len: nat)
    requires len <= CAPACITY
    ensures Slot(n + len) == Slot(n) <==> len == 0 || len == CAPACITY
  {
    if 0 < len < CAPACITY {
      SlotsDiffer(n, n + len);
    }
  }

  /** There is no full check: the push that makes 1024 tasks moves the tail onto the head,
      and the deque tests as empty with all of them inside. */
  lemma OverfullLooksEmpty(run: seq<Action>, task: Task)
    requires After(run).fault.None? && After(run).owner.Resting?
    ensures var s := OwnerNext(Apply(After(run), StartPush(task)));
            s.tail.low == s.head.low <==> |s.contents| == CAPACITY
  {
    InvAlways(Fresh(), run);
    PushMovesTail(After(run), task);
  }

  lemma PushMovesTail(s: State, task: Task)
    requires RingOk(s) && s.owner.Resting?
    ensures var s' := OwnerNext(Apply(s, StartPush(task)));
      && s'.tail.low == Slot(TailCount(s) + 1) && s'.head == s.head && s'.contents == s.contents + [task]
      && (s'.tail.low == s'.head.low <==> |s'.contents| == CAPACITY)
  {
    SlotSteps(TailCount(s));
    RingFullWraps(s.headCount, |s.contents| + 1);
  }

  /** Any number of tasks up to 1023 can be in the deque. */
  lemma {:induction false} FillUp(n: nat) returns (run: seq<Action>)
    requires n < CAPACITY
    ensures var s := After(run); s.fault.None? && s.owner.Resting? && |s.contents| == n && s.thieves == map[]
    decreases n
  {
    if n == 0 {
      run := [];
    } else {
      var before := FillUp(n - 1);
      InvAlways(Fresh(), before);
      run := before + ([StartPush(n), OwnerStep] + []);
      RunConcat(Fresh(), before, [StartPush(n), OwnerStep] + []);
      PushTwoSteps(After(before), n, []);
      PushKeepsAll(After(before), n);
    }
  }

  // What a call that only looks does: nothing.
  lemma LooksEmpty(s: State, id: ThiefId)
    requires s.owner.Resting? && id !in s.thieves && s.tail.low == s.head.low
    ensures var p := OwnerNext(Apply(s, StartPop));
      p.owner.Resting? && p.contents == s.contents && p.taken == s.taken
    ensures var q := ThiefNext(ThiefNext(s, id, false), id, false);
      id !in q.thieves && q.contents == s.contents && q.taken == s.taken
  {
  }

  /** The consequence: after the push that makes 1024 tasks, Pop and Steal find the deque empty,
      take nothing, and leave all 1024 of them where they are. */
  lemma OverfullHidesTasks(run: seq<Action>, task: Task, id: ThiefId)
    requires After(run).fault.None? && After(run).owner.Resting? && |After(run).contents| == CAPACITY - 1
    requires id !in After(run).thieves
    ensures var s := OwnerNext(Apply(After(run), StartPush(task)));
      && |s.contents| == CAPACITY && s.owner.Resting?
      && (var p := OwnerNext(Apply(s, StartPop)); p.owner.Resting? && p.contents == s.contents && p.taken == s.taken)
      && (var q := ThiefNext(ThiefNext(s, id, false), id, false);
          id !in q.thieves && q.contents == s.contents && q.taken == s.taken)
  {
    InvAlways(Fresh(), run);
    PushMovesTail(After(run), task);
    LooksEmpty(OwnerNext(Apply(After(run), StartPush(task))), id);
  }

  // A push onto a full ring, and a thief's four accesses.
  function PushThenSteal(s: State, y: Task, id: ThiefId): State {
    var s' := OwnerNext(Apply(s, StartPush(y)));
    ThiefNext(ThiefNext(ThiefNext(ThiefNext(s', id, false), id, false), id, false), id, false)
  }

  lemma FullPushOverwrites(s: State, y: Task, id: ThiefId)
    requires s.owner.Resting? && id !in s.thieves && s.tail.low == s.head.low == Slot(s.headCount) && |s.buffer| == CAPACITY
    requires s.contents != []
    ensures var s' := PushThenSteal(s, y, id);
      && s'.taken == s.taken + multiset{y} && s'.pushed == s.pushed + multiset{y}
      && s'.contents == s.contents[1..] + [y]
  {
    SlotSteps(s.headCount);
    SlotsDiffer(s.headCount, s.headCount + 1);
    var s1 := OwnerNext(Apply(s, StartPush(y)));
    assert Load(s1.buffer, s1.head.low) == y && s1.tail.low == Slot(s.headCount + 1) != s1.head.low;
    var s2 := ThiefNext(ThiefNext(s1, id, false), id, false);
    assert id in s2.thieves && s2.thieves[id] == SawBoth(0, s1.head);
    var s3 := ThiefNext(s2, id, false);
    assert id in s3.thieves && s3.thieves[id] == SawTask(0, s1.head, y);
    assert Rest(s.contents + [y]) == s.contents[1..] + [y];
  }

  lemma SwapForFirst(taken: multiset<Task>, contents: seq<Task>, y: Task)
    requires contents != []
    ensures taken + multiset(contents) + multiset{y} == taken + multiset{y} + multiset(contents[1..] + [y])
      <==> y == contents[0]
  {
    var x := contents[0];
    assert contents == [x] + contents[1..];
    assert multiset(contents) == multiset{x} + multiset(contents[1..]);
    if y != x {
      var left, right := taken + multiset(contents) + multiset{y}, taken + multiset{y} + multiset(contents[1..] + [y]);
      assert left[x] == taken[x] + multiset(contents[1..])[x] + 1;
      assert right[x] == taken[x] + multiset(contents[1..])[x];
    }
  }

  /** And the next push overwrites the oldest task, which is lost: the first steal gets the new
      task, and what was pushed is what was taken and what is left exactly when the two are the
      same task. */
  lemma OverfullLosesOldest(run: seq<Action>, task: Task, y: Task, id: ThiefId)
    requires After(run).fault.None? && After(run).owner.Resting? && |After(run).contents| == CAPACITY - 1
    requires id !in After(run).thieves
    ensures var s := OwnerNext(Apply(After(run), StartPush(task))); var s' := PushThenSteal(s, y, id);
      && s.contents == After(run).contents + [task] && s'.taken == s.taken + multiset{y}
      && (s'.pushed == s'.taken + multiset(s'.contents) <==> y == s.contents[0])
  {
    InvAlways(Fresh(), run);
    OldestIsLost(After(run), task, y, id);
  }

  lemma OldestIsLost(s0: State, task: Task, y: Task, id: ThiefId)
    requires Good(s0) && s0.owner.Resting? && |s0.contents| == CAPACITY - 1 && id !in s0.thieves
    ensures var s := OwnerNext(Apply(s0, StartPush(task))); var s' := PushThenSteal(s, y, id);
      && s.contents == s0.contents + [task] && s'.taken == s.taken + multiset{y}
      && (s'.pushed == s'.taken + multiset(s'.contents) <==> y == s.contents[0])
  {
    PushMovesTail(s0, task);
    PushConserves(s0, task);
    var s := OwnerNext(Apply(s0, StartPush(task)));
    FullPushOverwrites(s, y, id);
    SwapForFirst(s.taken, s.contents, y);
  }

  lemma PushConserves(s: State, task: Task)
    requires s.owner.Resting? && s.pushed == s.taken + multiset(s.contents)
    ensures var s' := OwnerNext(Apply(s, StartPush(task))); s'.pushed == s'.taken + multiset(s'.contents)
  {
    assert multiset(s.contents + [task]) == multiset(s.contents) + multiset{task};
  }

  /** A CAS that succeeds on a stale word takes the task that was first when the word was
      loaded, in place of the first one now: conservation survives it exactly when the two are
      the same task. */
  lemma StaleCasBreaksIff(run: seq<Action>, a: Action)
    requires After(run).fault.None? && StaleSuccess(After(run), a)
    ensures var s, s' := After(run), Apply(After(run), a);
      && s'.taken == s.taken + multiset{s.thieves[a.id].task} && s'.contents == Rest(s.contents)
      && (s'.pushed == s'.taken + multiset(s'.contents) <==> s.contents != [] && s.contents[0] == s.thieves[a.id].task)
  {
    InvAlways(Fresh(), run);
    var s := After(run);
    assert ThiefOk(s, a.id);
    WordsMatchIff(s.seen[a.id], s.headCount);
    FirstInsteadOf(s.taken, s.contents, s.thieves[a.id].task);
  }

  // A steal that nobody disturbs.
  function FourSteps(s: State, id: ThiefId): State {
    ThiefNext(ThiefNext(ThiefNext(ThiefNext(s, id, false), id, false), id, false), id, false)
  }

  lemma ThreeStepsSee(s: State, id: ThiefId)
    requires Good(s) && s.fault.None? && id !in s.thieves && 0 < |s.contents| < CAPACITY
    ensures var s' := ThiefNext(ThiefNext(ThiefNext(s, id, false), id, false), id, false);
      && s' == s.(thieves := s.thieves[id := SawTask(0, s.head, s.contents[0])], seen := s.seen[id := s.headCount])
      && Good(s')
  {
    ThreeStepsRead(s, id);
    ThreeStepsKeepGood(s, id);
  }

  lemma ThreeStepsRead(s: State, id: ThiefId)
    requires RingOk(s) && id !in s.thieves && 0 < |s.contents| < CAPACITY
    ensures ThiefNext(ThiefNext(ThiefNext(s, id, false), id, false), id, false) ==
      s.(thieves := s.thieves[id := SawTask(0, s.head, s.contents[0])], seen := s.seen[id := s.headCount])
  {
    SlotsDiffer(s.headCount, s.headCount + |s.contents|);
    var s2 := ThiefNext(ThiefNext(s, id, false), id, false);
    assert s2 == s.(thieves := s.thieves[id := SawBoth(0, s.head)], seen := s.seen[id := s.headCount]);
    assert Load(s2.buffer, s2.head.low) == s.contents[0];
  }

  lemma ThreeStepsKeepGood(s: State, id: ThiefId)
    requires Good(s) && s.fault.None? && ThiefNext(ThiefNext(ThiefNext(s, id, false), id, false), id, false).fault.None?
    ensures Good(ThiefNext(ThiefNext(ThiefNext(s, id, false), id, false), id, false))
  {
    var a := ThiefStep(id, false);
    ApplyKeepsInv(s, a);
    ApplyKeepsInv(Apply(s, a), a);
    ApplyKeepsInv(Apply(Apply(s, a), a), a);
    FaultStays(Apply(Apply(s, a), a), a);
    FaultStays(Apply(s, a), a);
  }

  // The fourth access, the CAS of a thief that has seen all that there is.
  lemma CasTakesFirst(s: State, id: ThiefId)
    requires s.fault.None? && id !in s.thieves && s.contents != []
    ensures ThiefNext(s.(thieves := s.thieves[id := SawTask(0, s.head, s.contents[0])], seen := s.seen[id := s.headCount]), id, false)
      == s.(head := NextWord(s.head, IndexAfter(s.head.low)), headCount := s.headCount + 1, contents := s.contents[1..],
            taken := s.taken + multiset{s.contents[0]}, seen := s.seen[id := s.headCount])
  {
    assert s.thieves[id := SawTask(0, s.head, s.contents[0])] - {id} == s.thieves;
  }

  lemma FourStepsSteal(s: State, id: ThiefId)
    requires Good(s) && s.fault.None? && id !in s.thieves && 0 < |s.contents| < CAPACITY
    ensures var s' := FourSteps(s, id);
      && Good(s') && s'.fault.None? && s'.owner == s.owner && s'.thieves == s.thieves
      && s'.seen == s.seen[id := s.headCount] && s'.headCount == s.headCount + 1 && s'.contents == s.contents[1..]
  {
    ThreeStepsSee(s, id);
    var s3 := ThiefNext(ThiefNext(ThiefNext(s, id, false), id, false), id, false);
    CasTakesFirst(s, id);
    ThiefKeepsInv(s3, id, false);
  }

  // ---- Calls that nobody disturbs ----

  // A Pop and the accesses that it makes, or fewer: at rest the owner has none to make.
  function PopAccesses(s: State): State {
    OwnerNext(OwnerNext(OwnerNext(OwnerNext(Apply(s, StartPop)))))
  }

  lemma PopLoadsWords(s: State)
    requires Good(s) && s.fault.None? && s.owner.Resting? && s.contents != []
    ensures var s' := OwnerNext(Apply(s, StartPop));
      Good(s') && s' == s.(owner := PopSawTail(s.head, s.tail), ownerSeen := s.headCount)
  {
    var s1 := Apply(s, StartPop);
    StartPopKeepsGood(s);
    PopSeesEmptyRight(s1);
    PopLoadKeepsGood(s1);
  }

  lemma PopLoadsTask(s: State)
    requires Good(s) && s.owner == PopSawTail(s.head, s.tail) && s.contents != []
    ensures Good(OwnerNext(s)) && OwnerNext(s) == s.(owner := PopSawTask(s.head, s.tail, s.contents[|s.contents| - 1]))
  {
    SlotSteps(TailCount(s));
    HoldsAfterPop(s.buffer, s.headCount, s.contents);
    PopLoadKeepsGood(s);
  }

  // The last task is gone from s to s', and taken.
  predicate TookLast(s: State, s': State) {
    && s.contents != [] && s'.contents == s.contents[..|s.contents| - 1]
    && s'.taken == s.taken + multiset{s.contents[|s.contents| - 1]} && s'.pushed == s.pushed && s'.thieves == s.thieves
  }

  lemma PopStoresTail(s: State)
    requires Good(s) && s.fault.None? && s.contents != [] && s.ownerSeen == s.headCount && PlainStore(s)
    requires s.owner == PopSawTask(s.head, s.tail, s.contents[|s.contents| - 1])
    ensures var s' := OwnerNext(s); s'.owner.Resting? && s'.fault.None? && TookLast(s, s') && Good(s')
  {
    ClaimPosition(s);
    PopStoreKeepsGood(s);
  }

  lemma PopClaimsLast(s: State)
    requires Good(s) && s.fault.None? && s.contents != [] && s.ownerSeen == s.headCount && !PlainStore(s)
    requires s.owner == PopSawTask(s.head, s.tail, s.contents[|s.contents| - 1])
    ensures var s' := OwnerNext(OwnerNext(s)); s'.owner.Resting? && s'.fault.None? && TookLast(s, s') && Good(s')
  {
    ClaimPosition(s);
    ClaimTakesLast(s);
    PopClaimKeepsGood(s);
    PopResetKeepsGood(OwnerNext(s));
  }

  lemma PopTakes(s: State)
    requires Good(s) && s.fault.None? && s.owner.Resting? && s.contents != []
    ensures var s' := PopAccesses(s); s'.owner.Resting? && s'.fault.None? && TookLast(s, s') && Good(s')
  {
    PopLoadsWords(s);
    var s2 := OwnerNext(Apply(s, StartPop));
    PopLoadsTask(s2);
    var s3 := OwnerNext(s2);
    if PlainStore(s3) {
      PopStoresTail(s3);
    } else {
      PopClaimsLast(s3);
    }
  }

  // Either way the tail gets its next version.
  lemma PopMovesTail(s: State)
    requires Good(s) && s.fault.None? && s.owner.Resting? && s.contents != []
    ensures PopAccesses(s).tail.high == (s.tail.high + 1) % 0x1_0000_0000
  {
    PopLoadsWords(s);
    var s2 := OwnerNext(Apply(s, StartPop));
    PopLoadsTask(s2);
    StoresNextVersion(OwnerNext(s2));
  }

  lemma StoresNextVersion(s: State)
    requires s.owner.PopSawTask? && s.owner.t == s.tail && (PlainStore(s) || s.head == s.owner.h)
    ensures OwnerNext(OwnerNext(s)).tail.high == (s.tail.high + 1) % 0x1_0000_0000
  {
  }

  lemma PopTakesNothing(s: State)
    requires Good(s) && s.fault.None? && s.owner.Resting? && s.contents == []
    ensures PopAccesses(s) == s.(ownerSeen := s.headCount) && Good(PopAccesses(s))
  {
    StartPopKeepsGood(s);
    PopSeesEmptyRight(Apply(s, StartPop));
    PopLoadKeepsGood(Apply(s, StartPop));
  }

  // What a whole Pop does to what is in the deque.
  predicate PopDoes(s: State, s': State) {
    && s'.owner.Resting? && s'.fault.None? && Good(s') && s'.pushed == s.pushed
    && if s.contents == [] then s'.contents == [] && s'.taken == s.taken
       else
         && s'.contents == s.contents[..|s.contents| - 1] && s'.taken == s.taken + multiset{s.contents[|s.contents| - 1]}
         && s'.tail.high == (s.tail.high + 1) % 0x1_0000_0000
  }

  lemma PopFromGood(s: State)
    requires Good(s) && s.fault.None? && s.owner.Resting?
    ensures PopDoes(s, PopAccesses(s))
  {
    if s.contents == [] {
      PopTakesNothing(s);
    } else {
      PopTakes(s);
      PopMovesTail(s);
    }
  }

  /** A Pop that no thief disturbs takes the last task, with the next version of the tail, and takes
      nothing exactly from an empty deque. */
  lemma PopUndisturbed(run: seq<Action>)
    requires After(run).fault.None? && After(run).owner.Resting?
    ensures PopDoes(After(run), PopAccesses(After(run)))
  {
    InvAlways(Fresh(), run);
    PopFromGood(After(run));
  }

  lemma StealTakes(s: State, id: ThiefId)
    requires Good(s) && s.fault.None? && id !in s.thieves && s.contents != []
    ensures var s' := FourSteps(s, id);
      && s'.fault.None? && id !in s'.thieves && s'.owner == s.owner && Good(s')
      && s'.contents == s.contents[1..] && s'.taken == s.taken + multiset{s.contents[0]} && s'.pushed == s.pushed
  {
    FourStepsSteal(s, id);
    ThreeStepsRead(s, id);
    CasTakesFirst(s, id);
  }

  lemma StealLooks(s: State, id: ThiefId)
    requires RingOk(s) && id !in s.thieves
    ensures var s' := ThiefNext(ThiefNext(s, id, false), id, false);
      && s'.contents == s.contents && s'.taken == s.taken && (id !in s'.thieves <==> s.contents == [])
  {
    RingFullWraps(s.headCount, |s.contents|);
  }

  /** A Steal that nobody disturbs takes the first task at its first attempt, and ends after two loads
      exactly with an empty deque. */
  lemma StealUndisturbed(run: seq<Action>, id: ThiefId)
    requires After(run).fault.None? && id !in After(run).thieves
    ensures var s, two := After(run), ThiefNext(ThiefNext(After(run), id, false), id, false);
      two.contents == s.contents && two.taken == s.taken && (id !in two.thieves <==> s.contents == [])
    ensures var s, four := After(run), FourSteps(After(run), id);
      s.contents != [] ==>
        && four.fault.None? && id !in four.thieves && Good(four) && four.pushed == s.pushed
        && four.contents == s.contents[1..] && four.taken == s.taken + multiset{s.contents[0]}
  {
    InvAlways(Fresh(), run);
    StealLooks(After(run), id);
    if After(run).contents != [] {
      StealTakes(After(run), id);
    }
  }

  // Thief 0 has long since read task 1 at the head's first position; the head is k moves on.
  predicate Dozing(s: State, k: nat) {
    && Good(s) && s.fault.None? && s.owner.Resting? && |s.contents| == 1 && s.headCount == k && (k > 0 ==> s.contents == [2])
    && 0 in s.thieves && s.thieves[0] == SawTask(0, HeadWord(0), 1) && 0 in s.seen && s.seen[0] == 0 && 1 !in s.thieves
  }

  lemma PushKeepsAll(s: State, task: Task)
    requires Good(s) && s.fault.None? && s.owner.Resting? && |s.contents| < CAPACITY - 1
    ensures var s' := OwnerNext(Apply(s, StartPush(task)));
      && Good(s') && s'.fault.None? && s'.owner.Resting? && s'.contents == s.contents + [task]
      && s'.headCount == s.headCount && s'.head == s.head && s'.thieves == s.thieves && s'.seen == s.seen
  {
    ApplyKeepsInv(s, StartPush(task));
    ApplyKeepsInv(Apply(s, StartPush(task)), OwnerStep);
  }

  lemma RoundRun(s: State, run: seq<Action>)
    requires run == [StartPush(2), OwnerStep] + ([ThiefStep(1, false), ThiefStep(1, false)] + [ThiefStep(1, false), ThiefStep(1, false)])
    requires s.owner.Resting?
    ensures RunFrom(s, run) == FourSteps(OwnerNext(Apply(s, StartPush(2))), 1)
  {
    var a := ThiefStep(1, false);
    var s1 := OwnerNext(Apply(s, StartPush(2)));
    PushTwoSteps(s, 2, [a, a] + [a, a]);
    TwoSteps(s1, a, a, [a, a]);
    TwoSteps(Apply(Apply(s1, a), a), a, a, []);
    assert [a, a] + [] == [a, a];
  }

  // A push, and a steal by thief 1.
  lemma Round(s: State, k: nat) returns (run: seq<Action>)
    requires Dozing(s, k)
    ensures Dozing(RunFrom(s, run), k + 1)
  {
    run := [StartPush(2), OwnerStep] + ([ThiefStep(1, false), ThiefStep(1, false)] + [ThiefStep(1, false), ThiefStep(1, false)]);
    RoundRun(s, run);
    PushKeepsAll(s, 2);
    FourStepsSteal(OwnerNext(Apply(s, StartPush(2))), 1);
  }

  lemma {:induction false} Rounds(s: State, k: nat, n: nat) returns (run: seq<Action>)
    requires Dozing(s, k)
    ensures Dozing(RunFrom(s, run), k + n)
    decreases n
  {
    if n == 0 {
      run := [];
    } else {
      var first := Round(s, k);
      var rest := Rounds(RunFrom(s, first), k + 1, n - 1);
      run := first + rest;
      RunConcat(s, first, rest);
    }
  }

  lemma Doze() returns (run: seq<Action>)
    ensures Dozing(After(run), 0)
  {
    var a := ThiefStep(0, false);
    run := [StartPush(1), OwnerStep] + ([a, a] + [a]);
    var s1 := OwnerNext(Apply(Fresh(), StartPush(1)));
    PushTwoSteps(Fresh(), 1, [a, a] + [a]);
    TwoSteps(s1, a, a, [a]);
    var s3 := Apply(Apply(s1, a), a);
    assert RunFrom(s3, [a]) == RunFrom(Apply(s3, a), []);
    PushKeepsAll(Fresh(), 1);
    ThreeStepsSee(s1, 0);
    FallsAsleep(s1, Apply(s3, a));
  }

  lemma FallsAsleep(s: State, s': State)
    requires s.fault.None? && s.owner.Resting? && s.contents == [1] && s.headCount == 0 && s.head == HeadWord(0) && s.thieves == map[]
    requires Good(s') && s' == s.(thieves := s.thieves[0 := SawTask(0, s.head, 1)], seen := s.seen[0 := s.headCount])
    ensures Dozing(s', 0)
  {
  }

  /** It happens too, after 2^32 rounds: a thief that has dozed on the first task gets it once
      more, in place of the one in the deque. */
  lemma StaleCasHappens() returns (run: seq<Action>)
    ensures After(run).fault.None? && StaleSuccess(After(run), ThiefStep(0, false))
    ensures var s := Apply(After(run), ThiefStep(0, false)); s.pushed != s.taken + multiset(s.contents)
  {
    var first := Doze();
    var rest := Rounds(After(first), 0, 0x1_0000_0000);
    run := first + rest;
    RunConcat(Fresh(), first, rest);
    WakesUp(run);
  }

  lemma WakesUp(run: seq<Action>)
    requires Dozing(After(run), 0x1_0000_0000)
    ensures After(run).fault.None? && StaleSuccess(After(run), ThiefStep(0, false))
    ensures var s := Apply(After(run), ThiefStep(0, false)); s.pushed != s.taken + multiset(s.contents)
  {
    StaleCasBreaksIff(run, ThiefStep(0, false));
  }

  lemma FirstInsteadOf(taken: multiset<Task>, contents: seq<Task>, task: Task)
    ensures taken + multiset(contents) == taken + multiset{task} + multiset(Rest(contents))
      <==> contents != [] && contents[0] == task
  {
    if contents == [] {
      assert (taken + multiset(contents))[task] == taken[task];
      assert (taken + multiset{task} + multiset(Rest(contents)))[task] == taken[task] + 1;
    } else {
      var x := contents[0];
      assert contents == [x] + contents[1..];
      assert multiset(contents) == multiset{x} + multiset(contents[1..]);
      if x != task {
        assert (taken + multiset(contents))[x] == taken[x] + multiset(contents[1..])[x] + 1;
        assert (taken + multiset{task} + multiset(Rest(contents)))[x] == taken[x] + multiset(contents[1..])[x];
      }
    }
  }

  // ---- The code ----

  predicate IsThieves(run: seq<Action>) {
    forall a | a in run :: a.ThiefStep?
  }

  predicate LeavesThief(run: seq<Action>, id: ThiefId) {
    forall a | a in run :: !(a.ThiefStep? && a.id == id)
  }

  lemma {:induction false} ThievesLeaveOwner(s: State, run: seq<Action>)
    requires IsThieves(run)
    ensures RunFrom(s, run).owner == s.owner && RunFrom(s, run).tail == s.tail && RunFrom(s, run).buffer == s.buffer
    decreases |run|
  {
    if run != [] {
      assert run[0].ThiefStep?;
      ThievesLeaveOwner(Apply(s, run[0]), run[1..]);
    }
  }

  lemma {:induction false} OthersLeaveThief(s: State, run: seq<Action>, id: ThiefId)
    requires LeavesThief(run, id)
    ensures id in RunFrom(s, run).thieves <==> id in s.thieves
    ensures id in s.thieves ==> RunFrom(s, run).thieves[id] == s.thieves[id]
    decreases |run|
  {
    if run != [] {
      OthersLeaveThief(Apply(s, run[0]), run[1..], id);
    }
  }

  /** The trace ends with the thief's successful CAS, for the given task. */
  predicate Steals(start: State, trace: seq<Action>, id: ThiefId, task: Task) {
    && trace != [] && trace[|trace| - 1] == ThiefStep(id, false)
    && var s := RunFrom(start, trace[..|trace| - 1]);
       id in s.thieves && s.thieves[id].SawTask? && s.thieves[id].task == task && s.thieves[id].h == s.head
  }

  /** At some access of the trace the owner took the given task: by its claim or its store. */
  ghost predicate OwnerTakes(start: State, trace: seq<Action>, task: Task) {
    exists k: nat :: k < |trace| && TakesAt(RunFrom(start, trace[..k]), trace[k], task)
  }

  predicate TakesAt(s: State, a: Action, task: Task) {
    a.OwnerStep? && s.owner.PopSawTask? && s.owner.task == task && (PlainStore(s) || s.head == s.owner.h)
  }

  // The owner's next access takes a task.
  predicate Takes(s: State) {
    s.owner.PopSawTask? && (PlainStore(s) || s.head == s.owner.h)
  }

  /** No access of the trace is one at which the owner took a task. */
  predicate OwnerTakesNothing(start: State, trace: seq<Action>) {
    forall k | 0 <= k < |trace| && trace[k].OwnerStep? :: !Takes(RunFrom(start, trace[..k]))
  }

  lemma TakesNothingMore(start: State, trace: seq<Action>, a: Action, run: seq<Action>)
    requires OwnerTakesNothing(start, trace) && IsThieves(run)
    requires !(a.OwnerStep? && Takes(RunFrom(start, trace)))
    ensures OwnerTakesNothing(start, trace + [a] + run)
  {
    var whole := trace + [a] + run;
    assert forall k | |trace| < k < |whole| :: whole[k] in run;
    forall k | 0 <= k < |whole| && whole[k].OwnerStep? ensures !Takes(RunFrom(start, whole[..k])) {
      assert k <= |trace|;
      assert whole[..k] == trace[..k];
      assert trace[..|trace|] == trace;
    }
  }

  // The thief's CAS would succeed.
  predicate CanSteal(s: State, id: ThiefId) {
    id in s.thieves && s.thieves[id].SawTask? && s.thieves[id].h == s.head
  }

  /** No access of the trace is a successful CAS of the thief. */
  predicate StealsNothing(start: State, trace: seq<Action>, id: ThiefId) {
    forall k | 0 <= k < |trace| && trace[k] == ThiefStep(id, false) :: !CanSteal(RunFrom(start, trace[..k]), id)
  }

  lemma StealsNothingMore(start: State, trace: seq<Action>, a: Action, run: seq<Action>, id: ThiefId)
    requires StealsNothing(start, trace, id) && LeavesThief(run, id)
    requires !(a == ThiefStep(id, false) && CanSteal(RunFrom(start, trace), id))
    ensures StealsNothing(start, trace + [a] + run, id)
  {
    var whole := trace + [a] + run;
    assert forall k | |trace| < k < |whole| :: whole[k] in run;
    forall k | 0 <= k < |whole| && whole[k] == ThiefStep(id, false) ensures !CanSteal(RunFrom(start, whole[..k]), id) {
      assert k <= |trace|;
      assert whole[..k] == trace[..k];
      assert trace[..|trace|] == trace;
    }
  }

  lemma StealsNothingAmong(start: State, trace: seq<Action>, run: seq<Action>, id: ThiefId)
    requires StealsNothing(start, trace, id) && LeavesThief(run, id)
    ensures StealsNothing(start, trace + run, id)
  {
    var whole := trace + run;
    assert forall k | |trace| <= k < |whole| :: whole[k] in run;
    forall k | 0 <= k < |whole| && whole[k] == ThiefStep(id, false) ensures !CanSteal(RunFrom(start, whole[..k]), id) {
      assert k < |trace| && whole[..k] == trace[..k];
    }
  }

  // A call's own accesses: its first, and then the owner's steps.
  predicate IsOwnerCall(own: seq<Action>, first: Action) {
    own != [] && own[0] == first && forall i | 0 < i < |own| :: own[i].OwnerStep?
  }

  lemma OwnerCallGoesOn(before: seq<Action>, more: seq<Action>, first: Action)
    requires IsOwnerCall(before, first) && forall a | a in more :: a == OwnerStep
    ensures IsOwnerCall(before + more, first)
  {
    forall i | |before| <= i < |before + more| ensures (before + more)[i].OwnerStep? {
      assert (before + more)[i] in more;
    }
  }

  // The accesses of an attempt to steal: two, or four with the CAS as the last.
  function ThiefSteps(id: ThiefId, n: nat, spurious: bool): seq<Action> {
    if n < 4 then [ThiefStep(id, false), ThiefStep(id, false)]
    else [ThiefStep(id, false), ThiefStep(id, false), ThiefStep(id, false), ThiefStep(id, spurious)]
  }

  lemma StepsAddUp(before: seq<Action>, id: ThiefId, spurious: bool)
    ensures var a := ThiefStep(id, false);
      && before + [a] + [a] == before + ThiefSteps(id, 2, spurious)
      && before + [a] + [a] + [a, ThiefStep(id, spurious)] == before + ThiefSteps(id, 4, spurious)
  {
  }

  // The accesses of one Steal: failed attempts, and then one that ends it.
  function StealSteps(id: ThiefId, failed: nat, n: nat, spurious: seq<bool>): seq<Action>
    requires failed < |spurious|
  {
    FailedSteps(id, failed, spurious) + ThiefSteps(id, n, spurious[failed])
  }

  function FailedSteps(id: ThiefId, failed: nat, spurious: seq<bool>): (r: seq<Action>)
    requires failed <= |spurious|
    ensures |r| == 4 * failed
  {
    if failed == 0 then [] else FailedSteps(id, failed - 1, spurious) + ThiefSteps(id, 4, spurious[failed - 1])
  }

  // How one attempt to steal ended.
  datatype Outcome = SawEmpty | Stole(task: Task) | Failed

  /** The deque object. `owner` and `thieves` say where each running call stands. */
  class WorkStealingQueue {
    const buffer: array<Task>
    var head: Word
    var tail: Word
    var owner: OwnerPhase
    var thieves: map<ThiefId, ThiefPhase>
    ghost var headCount: nat
    ghost var contents: seq<Task>
    ghost var seen: map<ThiefId, nat>
    ghost var ownerSeen: nat
    ghost var pushed: multiset<Task>
    ghost var taken: multiset<Task>
    ghost var fault: Option<Fault>

    ghost function View(): State
      reads this, buffer
    {
      State(buffer[..], head, tail, owner, thieves,
            headCount, contents, seen, ownerSeen, pushed, taken, fault)
    }

    constructor ()
      ensures View() == Fresh() && fresh(buffer)
    {
      buffer := new Task[1024](_ => 0);
      head, tail, owner, thieves := Word(0, 0), Word(0, 0), Resting, map[];
      headCount, contents, seen, ownerSeen := 0, [], map[], 0;
      pushed, taken, fault := multiset{}, multiset{}, None;
    }

    // ---- The owner's accesses ----

    method WriteSlot(task: Task)
      requires owner.Resting?
      modifies this, buffer
      ensures View() == Apply(old(View()), StartPush(task)) && owner == PushWrote(tail, task) && tail == old(tail)
    {
      if tail.low < buffer.Length {
        buffer[tail.low] := task;
      }
      owner := PushWrote(tail, task);
    }

    method StoreTailAfterPush(t: Word, task: Task)
      requires owner == PushWrote(t, task)
      modifies `tail, `owner, `contents, `pushed, `fault
      ensures View() == OwnerNext(old(View())) && owner.Resting?
    {
      fault := Raise(View(), Overfull, |contents| >= CAPACITY - 1);
      tail := NextWord(t, IndexAfter(t.low));
      owner := Resting;
      contents, pushed := contents + [task], pushed + multiset{task};
    }

    method LoadHeadToPop() returns (h: Word)
      requires owner.Resting?
      modifies this
      ensures View() == Apply(old(View()), StartPop) && h == head == old(head) && owner == PopSawHead(h)
    {
      h := head;
      owner, ownerSeen := PopSawHead(h), headCount;
    }

    method LoadTailToPop(h: Word) returns (t: Word, empty: bool)
      requires owner == PopSawHead(h)
      modifies this
      ensures View() == OwnerNext(old(View())) && t == tail == old(tail)
      ensures empty == (h.low == t.low) && owner == if empty then Resting else PopSawTail(h, t)
    {
      t, empty := tail, h.low == tail.low;
      owner := if empty then Resting else PopSawTail(h, t);
    }

    method LoadSlotToPop(h: Word, t: Word) returns (task: Task)
      requires owner == PopSawTail(h, t)
      modifies this
      ensures View() == OwnerNext(old(View())) && owner == PopSawTask(h, t, task)
    {
      var idx := IndexBefore(t.low);
      task := if idx < buffer.Length then buffer[idx] else 0;
      assert task == Load(buffer[..], idx);
      owner := PopSawTask(h, t, task);
    }

    method TakeLastByCas(h: Word, t: Word, task: Task) returns (claimed: bool)
      requires owner == PopSawTask(h, t, task) && IndexBefore(t.low) == h.low
      modifies `head, `owner, `headCount, `contents, `taken
      ensures View() == OwnerNext(old(View()))
      ensures claimed == (old(head) == h)
      ensures owner == if claimed then PopClaimed(t, task) else Resting
    {
      claimed := head == h;
      if claimed {
        head := NextWord(h, IndexAfter(IndexBefore(t.low)));
        owner := PopClaimed(t, task);
        headCount, contents, taken := headCount + 1, Front(contents), taken + multiset{task};
      } else {
        owner := Resting;
      }
    }

    method ResetTail(t: Word, task: Task)
      requires owner == PopClaimed(t, task)
      modifies this
      ensures View() == OwnerNext(old(View())) && owner.Resting?
    {
      tail, owner := NextWord(t, IndexAfter(IndexBefore(t.low))), Resting;
    }

    method StoreTailAfterPop(h: Word, t: Word, task: Task)
      requires owner == PopSawTask(h, t, task) && IndexBefore(t.low) != h.low
      modifies this
      ensures View() == OwnerNext(old(View())) && owner.Resting?
    {
      ghost var s' := OwnerNext(View());
      tail := NextWord(t, IndexBefore(t.low));
      owner := Resting;
      contents, taken, fault := s'.contents, s'.taken, s'.fault;
    }

    // ---- A thief's accesses ----

    method LoadHead(id: ThiefId, attempt: nat)
      requires if id in thieves then thieves[id] == Starting(attempt) else attempt == 0
      modifies this
      ensures View() == ThiefNext(old(View()), id, false) == ThiefNext(old(View()), id, true)
      ensures id in thieves && thieves[id] == SawHead(attempt, head) && head == old(head)
    {
      thieves, seen := thieves[id := SawHead(attempt, head)], seen[id := headCount];
    }

    method LoadTail(id: ThiefId, attempt: nat, h: Word) returns (empty: bool)
      requires id in thieves && thieves[id] == SawHead(attempt, h)
      modifies this
      ensures View() == ThiefNext(old(View()), id, false) == ThiefNext(old(View()), id, true)
      ensures empty == (h.low == tail.low)
      ensures if empty then id !in thieves else id in thieves && thieves[id] == SawBoth(attempt, h)
    {
      empty := h.low == tail.low;
      thieves := if empty then thieves - {id} else thieves[id := SawBoth(attempt, h)];
    }

    method LoadSlot(id: ThiefId, attempt: nat, h: Word) returns (task: Task)
      requires id in thieves && thieves[id] == SawBoth(attempt, h)
      modifies this
      ensures View() == ThiefNext(old(View()), id, false) == ThiefNext(old(View()), id, true)
      ensures id in thieves && thieves[id] == SawTask(attempt, h, task)
    {
      task := if h.low < buffer.Length then buffer[h.low] else 0;
      thieves := thieves[id := SawTask(attempt, h, task)];
      assert task == Load(buffer[..], h.low);
    }

    method MoveHead(id: ThiefId, attempt: nat, h: Word, task: Task)
      requires id in thieves && thieves[id] == SawTask(attempt, h, task) && head == h
      modifies this
      ensures View() == ThiefNext(old(View()), id, false)
      ensures id !in thieves
    {
      ghost var s' := ThiefNext(View(), id, false);
      head := NextWord(h, IndexAfter(h.low));
      thieves := thieves - {id};
      headCount, contents, taken, fault := s'.headCount, s'.contents, s'.taken, s'.fault;
    }

    method CasHead(id: ThiefId, attempt: nat, h: Word, task: Task, spurious: bool) returns (stolen: bool)
      requires id in thieves && thieves[id] == SawTask(attempt, h, task)
      modifies this
      ensures View() == ThiefNext(old(View()), id, spurious)
      ensures stolen == (old(head) == h && !spurious)
      ensures id in thieves <==> !stolen && attempt + 1 < MAX_STEAL_ATTEMPTS
      ensures id in thieves ==> thieves[id] == Starting(attempt + 1)
    {
      stolen := head == h && !spurious;
      if stolen {
        MoveHead(id, attempt, h, task);
      } else if attempt + 1 < MAX_STEAL_ATTEMPTS {
        thieves := thieves[id := Starting(attempt + 1)];
      } else {
        thieves := thieves - {id};
      }
    }

    // ---- Whole calls, among the accesses of others ----

    // One access of some thief: the next that its call of Steal makes.
    method ThiefAccess(id: ThiefId, spurious: bool)
      modifies this
      ensures View() == ThiefNext(old(View()), id, spurious)
    {
      var phase := if id in thieves then thieves[id] else Starting(0);
      match phase {
        case Starting(attempt) => LoadHead(id, attempt);
        case SawHead(attempt, h) => var _ := LoadTail(id, attempt, h);
        case SawBoth(attempt, h) => var _ := LoadSlot(id, attempt, h);
        case SawTask(attempt, h, task) => var _ := CasHead(id, attempt, h, task, spurious);
      }
    }

    // One access of the owner: the next that its running call makes.
    method OwnerAccess()
      modifies this
      ensures View() == OwnerNext(old(View()))
    {
      match owner {
        case Resting =>
        case PushWrote(t, task) => StoreTailAfterPush(t, task);
        case PopSawHead(h) => var _, _ := LoadTailToPop(h);
        case PopSawTail(h, t) => var _ := LoadSlotToPop(h, t);
        case PopSawTask(h, t, task) =>
          if IndexBefore(t.low) == h.low { var _ := TakeLastByCas(h, t, task); }
          else { StoreTailAfterPop(h, t, task); }
        case PopClaimed(t, task) => ResetTail(t, task);
      }
    }

    // The accesses of other threads, in the given order.
    method Interfere(run: seq<Action>)
      modifies this, buffer
      ensures View() == RunFrom(old(View()), run)
    {
      var i := 0;
      while i < |run|
        invariant 0 <= i <= |run|
        invariant View() == RunFrom(old(View()), run[..i])
      {
        RunSnoc(old(View()), run[..i], run[i]);
        assert run[..i] + [run[i]] == run[..i + 1];
        match run[i] {
          case StartPush(task) => if owner.Resting? { WriteSlot(task); }
          case StartPop => if owner.Resting? { var _ := LoadHeadToPop(); }
          case OwnerStep => OwnerAccess();
          case ThiefStep(id, spurious) => ThiefAccess(id, spurious);
        }
        i := i + 1;
      }
      assert run[..|run|] == run;
    }

    // Thieves' accesses that fall between two of the owner's.
    method Between(run: seq<Action>, ghost start: State, ghost before: seq<Action>)
      requires IsThieves(run) && View() == RunFrom(start, before)
      modifies this, buffer
      ensures View() == RunFrom(start, before + run)
      ensures owner == old(owner) && tail == old(tail)
    {
      ThievesLeaveOwner(View(), run);
      RunConcat(start, before, run);
      Interfere(run);
    }

    // The owner's accesses so far, with the thieves' after each, have led here, and the owner
    // has taken nothing.
    ghost predicate Along(start: State, own: seq<Action>, runs: seq<seq<Action>>)
      reads this, buffer
    {
      && |own| <= |runs| && View() == RunFrom(start, Woven(own, runs[..|own|]))
      && OwnerTakesNothing(start, Woven(own, runs[..|own|]))
    }

    // The thieves' accesses after the owner's access a, which took nothing.
    method ThenThieves(runs: seq<seq<Action>>, used: nat, ghost start: State, ghost before: seq<Action>, ghost a: Action)
      returns (ghost own: seq<Action>)
      requires used == |before| < |runs| && IsThieves(runs[used])
      requires var s := RunFrom(start, Woven(before, runs[..used]));
        View() == Apply(s, a) && !(a.OwnerStep? && Takes(s))
      requires OwnerTakesNothing(start, Woven(before, runs[..used]))
      modifies this, buffer
      ensures own == before + [a] && Along(start, own, runs)
      ensures owner == old(owner) && tail == old(tail)
    {
      ghost var trace := Woven(before, runs[..used]);
      RunSnoc(start, trace, a);
      TakesNothingMore(start, trace, a, runs[used]);
      Between(runs[used], start, trace + [a]);
      Further(before, runs, a);
      own := before + [a];
    }

    /** Push: the slot, then the tail. */
    method Push(task: Task, among: seq<Action>)
      requires owner.Resting? && IsThieves(among)
      modifies this, buffer
      ensures View() == RunFrom(old(View()), [StartPush(task)] + among + [OwnerStep])
      ensures owner.Resting?
    {
      ghost var start := View();
      var t := tail;
      WriteSlot(task);
      RunSnoc(start, [], StartPush(task));
      assert [] + [StartPush(task)] == [StartPush(task)];
      Between(among, start, [StartPush(task)]);
      RunSnoc(start, [StartPush(task)] + among, OwnerStep);
      StoreTailAfterPush(t, task);
    }

    /** Pop: the two words, the slot, and then either a claim through the head or a plain
        store of the tail; `runs` are the thieves' accesses after each of its own but the last.
        The item is the task that one of these took, and without an item none of them took any. */
    method Pop(runs: seq<seq<Action>>) returns (item: Option<Task>, ghost own: seq<Action>)
      requires owner.Resting? && |runs| == 4 && forall run | run in runs :: IsThieves(run)
      modifies this, buffer
      ensures IsOwnerCall(own, StartPop) && |own| <= 5 && owner.Resting?
      ensures View() == RunFrom(old(View()), Woven(own, runs[..|own| - 1]))
      ensures item.Some? ==> OwnerTakes(old(View()), Woven(own, runs[..|own| - 1]), item.value)
      ensures item.None? ==> OwnerTakesNothing(old(View()), Woven(own, runs[..|own| - 1]))
    {
      ghost var start := View();
      var h := LoadHeadToPop();
      own := ThenThieves(runs, 0, start, [], StartPop);
      ghost var s := View();
      var t, empty := LoadTailToPop(h);
      OwnerCallGoesOn([StartPop], [OwnerStep], StartPop);
      if empty {
        LastAccess(start, own, runs, s);
        own := own + [OwnerStep];
        return None, own;
      }
      own := ThenThieves(runs, 1, start, own, OwnerStep);
      OwnerCallGoesOn(own, [OwnerStep, OwnerStep], StartPop);
      OwnerCallGoesOn(own, [OwnerStep, OwnerStep, OwnerStep], StartPop);
      item, own := PopSeen(h, t, runs, start, own);
    }

    // The rest of Pop once the deque was seen not to be empty.
    method PopSeen(h: Word, t: Word, runs: seq<seq<Action>>, ghost start: State, ghost before: seq<Action>)
      returns (item: Option<Task>, ghost own: seq<Action>)
      requires owner == PopSawTail(h, t) && |runs| == 4 && forall run | run in runs :: IsThieves(run)
      requires |before| == 2 && Along(start, before, runs)
      modifies this, buffer
      ensures own == before + [OwnerStep, OwnerStep] || own == before + [OwnerStep, OwnerStep, OwnerStep]
      ensures View() == RunFrom(start, Woven(own, runs[..|own| - 1])) && owner.Resting?
      ensures item.Some? ==> OwnerTakes(start, Woven(own, runs[..|own| - 1]), item.value)
      ensures item.None? ==> OwnerTakesNothing(start, Woven(own, runs[..|own| - 1]))
    {
      var task := LoadSlotToPop(h, t);
      own := ThenThieves(runs, 2, start, before, OwnerStep);
      item, own := TakeTask(h, t, task, runs, start, own);
    }

    // The rest of Pop, once the task is read: the claim through the head or the plain store.
    method TakeTask(h: Word, t: Word, task: Task, runs: seq<seq<Action>>, ghost start: State, ghost before: seq<Action>)
      returns (item: Option<Task>, ghost own: seq<Action>)
      requires owner == PopSawTask(h, t, task) && |runs| == 4 && IsThieves(runs[3])
      requires |before| == 3 && Along(start, before, runs)
      modifies this, buffer
      ensures own == before + [OwnerStep] || own == before + [OwnerStep, OwnerStep]
      ensures View() == RunFrom(start, Woven(own, runs[..|own| - 1])) && owner.Resting?
      ensures item == (if IndexBefore(t.low) != h.low || old(head) == h then Some(task) else None)
      ensures item.Some? ==> OwnerTakes(start, Woven(own, runs[..|own| - 1]), task)
      ensures item.None? ==> OwnerTakesNothing(start, Woven(own, runs[..|own| - 1]))
    {
      if IndexBefore(t.low) == h.low {
        item, own := ClaimLast(h, t, task, runs, start, before);
        return;
      }
      LastAccess(start, before, runs, View());
      TakenAt(start, Woven(before, runs[..3]), [], task);
      assert Woven(before, runs[..3]) + [OwnerStep] + [] == Woven(before, runs[..3]) + [OwnerStep];
      StoreTailAfterPop(h, t, task);
      item, own := Some(task), before + [OwnerStep];
    }

    // The claim of the only task through the head.
    method ClaimLast(h: Word, t: Word, task: Task, runs: seq<seq<Action>>, ghost start: State, ghost before: seq<Action>)
      returns (item: Option<Task>, ghost own: seq<Action>)
      requires owner == PopSawTask(h, t, task) && IndexBefore(t.low) == h.low && |runs| == 4 && IsThieves(runs[3])
      requires |before| == 3 && Along(start, before, runs)
      modifies this, buffer
      ensures own == before + [OwnerStep] || own == before + [OwnerStep, OwnerStep]
      ensures View() == RunFrom(start, Woven(own, runs[..|own| - 1])) && owner.Resting?
      ensures item == if old(head) == h then Some(task) else None
      ensures item.Some? ==> OwnerTakes(start, Woven(own, runs[..|own| - 1]), task)
      ensures item.None? ==> OwnerTakesNothing(start, Woven(own, runs[..|own| - 1]))
    {
      LastAccess(start, before, runs, View());
      own := before + [OwnerStep];
      ghost var s := View();
      var claimed := TakeLastByCas(h, t, task);
      if !claimed {
        return None, own;
      }
      assert TakesAt(s, OwnerStep, task);
      own := AfterClaim(t, task, runs, start, before);
      item := Some(task);
    }

    // The reset of the tail after a claim.
    method AfterClaim(t: Word, task: Task, runs: seq<seq<Action>>, ghost start: State, ghost before: seq<Action>)
      returns (ghost own: seq<Action>)
      requires owner == PopClaimed(t, task) && |runs| == 4 && IsThieves(runs[3]) && |before| == 3
      requires View() == RunFrom(start, Woven(before, runs[..3]) + [OwnerStep])
      requires TakesAt(RunFrom(start, Woven(before, runs[..3])), OwnerStep, task)
      modifies this, buffer
      ensures own == before + [OwnerStep, OwnerStep] && owner.Resting?
      ensures View() == RunFrom(start, Woven(own, runs[..4])) && OwnerTakes(start, Woven(own, runs[..4]), task)
    {
      ghost var trace := Woven(before, runs[..3]);
      Between(runs[3], start, trace + [OwnerStep]);
      RunSnoc(start, trace + [OwnerStep] + runs[3], OwnerStep);
      ResetTail(t, task);
      Further(before, runs, OwnerStep);
      Ending(before + [OwnerStep], runs, OwnerStep);
      TakenAt(start, trace, runs[3] + [OwnerStep], task);
      assert trace + [OwnerStep] + (runs[3] + [OwnerStep]) == trace + [OwnerStep] + runs[3] + [OwnerStep];
      own := before + [OwnerStep] + [OwnerStep];
    }

    // The call's last access, made from the state s.
    lemma LastAccess(start: State, own: seq<Action>, runs: seq<seq<Action>>, s: State)
      requires |own| <= |runs| && s == RunFrom(start, Woven(own, runs[..|own|]))
      requires OwnerTakesNothing(start, Woven(own, runs[..|own|]))
      ensures RunFrom(start, Woven(own + [OwnerStep], runs[..|own|])) == OwnerNext(s)
      ensures Woven(own + [OwnerStep], runs[..|own|]) == Woven(own, runs[..|own|]) + [OwnerStep]
      ensures !Takes(s) ==> OwnerTakesNothing(start, Woven(own + [OwnerStep], runs[..|own|]))
    {
      var trace := Woven(own, runs[..|own|]);
      Ending(own, runs, OwnerStep);
      RunSnoc(start, trace, OwnerStep);
      if !Takes(s) {
        TakesNothingMore(start, trace, OwnerStep, []);
        assert trace + [OwnerStep] + [] == trace + [OwnerStep];
      }
    }

    lemma TakenAt(start: State, trace: seq<Action>, rest: seq<Action>, task: Task)
      requires TakesAt(RunFrom(start, trace), OwnerStep, task)
      ensures OwnerTakes(start, trace + [OwnerStep] + rest, task)
    {
      var whole := trace + [OwnerStep] + rest;
      assert whole[..|trace|] == trace && whole[|trace|] == OwnerStep;
    }

    // Others' accesses, the owner's among them, that fall between two of a thief's.
    method BetweenThief(id: ThiefId, run: seq<Action>, ghost start: State, ghost before: seq<Action>)
      requires LeavesThief(run, id) && View() == RunFrom(start, before)
      modifies this, buffer
      ensures View() == RunFrom(start, before + run)
      ensures id in thieves <==> id in old(thieves)
      ensures id in thieves ==> thieves[id] == old(thieves)[id]
    {
      OthersLeaveThief(View(), run, id);
      RunConcat(start, before, run);
      Interfere(run);
    }

    // The thief's accesses so far, with the others' after each, have led here, and none of
    // them was a successful CAS.
    ghost predicate AlongThief(start: State, own: seq<Action>, runs: seq<seq<Action>>, id: ThiefId)
      reads this, buffer
    {
      && |own| <= |runs| && View() == RunFrom(start, Woven(own, runs[..|own|]))
      && StealsNothing(start, Woven(own, runs[..|own|]), id)
    }

    // The others' accesses after the thief's access a, which was no successful CAS.
    method ThenOthers(id: ThiefId, runs: seq<seq<Action>>, used: nat, ghost start: State, ghost before: seq<Action>, ghost a: Action)
      returns (ghost own: seq<Action>)
      requires used == |before| < |runs| && LeavesThief(runs[used], id)
      requires var s := RunFrom(start, Woven(before, runs[..used]));
        View() == Apply(s, a) && !(a == ThiefStep(id, false) && CanSteal(s, id))
      requires StealsNothing(start, Woven(before, runs[..used]), id)
      modifies this, buffer
      ensures own == before + [a] && AlongThief(start, own, runs, id)
      ensures id in thieves <==> id in old(thieves)
      ensures id in thieves ==> thieves[id] == old(thieves)[id]
    {
      ghost var trace := Woven(before, runs[..used]);
      RunSnoc(start, trace, a);
      StealsNothingMore(start, trace, a, runs[used], id);
      BetweenThief(id, runs[used], start, trace + [a]);
      Further(before, runs, a);
      own := before + [a];
    }

    // An attempt is over: its last access is not followed by others'.
    ghost predicate AttemptEnds(start: State, own: seq<Action>, runs: seq<seq<Action>>, id: ThiefId, outcome: Outcome)
      reads this, buffer
    {
      && 0 < |own| <= |runs| && View() == RunFrom(start, Woven(own, runs[..|own| - 1]))
      && if outcome.Stole? then Steals(start, Woven(own, runs[..|own| - 1]), id, outcome.task)
         else StealsNothing(start, Woven(own, runs[..|own| - 1]), id)
    }

    // One attempt: both words, the slot, the weak CAS; `used` accesses were made before it.
    method Attempt(id: ThiefId, attempt: nat, runs: seq<seq<Action>>, used: nat, spurious: bool,
                   ghost start: State, ghost before: seq<Action>)
      returns (outcome: Outcome, ghost own: seq<Action>)
      requires if id in thieves then thieves[id] == Starting(attempt) else attempt == 0
      requires used + 4 <= |runs| && forall run | run in runs :: LeavesThief(run, id)
      requires used == |before| && AlongThief(start, before, runs, id)
      modifies this, buffer
      ensures own == before + ThiefSteps(id, if outcome.SawEmpty? then 2 else 4, spurious)
      ensures AttemptEnds(start, own, runs, id, outcome)
      ensures id in thieves <==> outcome.Failed? && attempt + 1 < MAX_STEAL_ATTEMPTS
      ensures id in thieves ==> thieves[id] == Starting(attempt + 1)
    {
      var h, empty;
      h, own := BeginAttempt(id, attempt, runs, used, start, before);
      empty, own := LookForTasks(id, attempt, h, runs, used + 1, start, own);
      if empty {
        outcome := SawEmpty;
      } else {
        outcome, own := AttemptSeen(id, attempt, h, runs, used + 2, spurious, start, own);
      }
      StepsAddUp(before, id, spurious);
    }

    method BeginAttempt(id: ThiefId, attempt: nat, runs: seq<seq<Action>>, used: nat, ghost start: State, ghost before: seq<Action>)
      returns (h: Word, ghost own: seq<Action>)
      requires if id in thieves then thieves[id] == Starting(attempt) else attempt == 0
      requires used < |runs| && forall run | run in runs :: LeavesThief(run, id)
      requires used == |before| && AlongThief(start, before, runs, id)
      modifies this, buffer
      ensures own == before + [ThiefStep(id, false)] && AlongThief(start, own, runs, id)
      ensures id in thieves && thieves[id] == SawHead(attempt, h)
    {
      h := head;
      LoadHead(id, attempt);
      own := ThenOthers(id, runs, used, start, before, ThiefStep(id, false));
    }

    // The load of the tail, with which an attempt may end.
    method LookForTasks(id: ThiefId, attempt: nat, h: Word, runs: seq<seq<Action>>, used: nat,
                        ghost start: State, ghost before: seq<Action>)
      returns (empty: bool, ghost own: seq<Action>)
      requires id in thieves && thieves[id] == SawHead(attempt, h)
      requires used < |runs| && forall run | run in runs :: LeavesThief(run, id)
      requires used == |before| && AlongThief(start, before, runs, id)
      modifies this, buffer
      ensures own == before + [ThiefStep(id, false)]
      ensures if empty then AttemptEnds(start, own, runs, id, SawEmpty) && id !in thieves
        else AlongThief(start, own, runs, id) && id in thieves && thieves[id] == SawBoth(attempt, h)
    {
      ghost var s := View();
      empty := LoadTail(id, attempt, h);
      if empty {
        LastThiefAccess(start, before, runs, s, id, false);
        own := before + [ThiefStep(id, false)];
      } else {
        own := ThenOthers(id, runs, used, start, before, ThiefStep(id, false));
      }
    }

    // The rest of an attempt once the deque was seen not to be empty.
    method AttemptSeen(id: ThiefId, attempt: nat, h: Word, runs: seq<seq<Action>>, used: nat, spurious: bool,
                       ghost start: State, ghost before: seq<Action>)
      returns (outcome: Outcome, ghost own: seq<Action>)
      requires id in thieves && thieves[id] == SawBoth(attempt, h)
      requires used + 2 <= |runs| && forall run | run in runs :: LeavesThief(run, id)
      requires used == |before| && AlongThief(start, before, runs, id)
      modifies this, buffer
      ensures own == before + [ThiefStep(id, false), ThiefStep(id, spurious)] && !outcome.SawEmpty?
      ensures AttemptEnds(start, own, runs, id, outcome)
      ensures id in thieves <==> outcome.Failed? && attempt + 1 < MAX_STEAL_ATTEMPTS
      ensures id in thieves ==> thieves[id] == Starting(attempt + 1)
    {
      var task := LoadSlot(id, attempt, h);
      own := ThenOthers(id, runs, used, start, before, ThiefStep(id, false));
      outcome, own := FinishAttempt(id, attempt, h, task, runs, spurious, start, own);
    }

    method FinishAttempt(id: ThiefId, attempt: nat, h: Word, task: Task, runs: seq<seq<Action>>, spurious: bool,
                         ghost start: State, ghost before: seq<Action>)
      returns (outcome: Outcome, ghost own: seq<Action>)
      requires id in thieves && thieves[id] == SawTask(attempt, h, task)
      requires |before| < |runs| && AlongThief(start, before, runs, id)
      modifies this
      ensures own == before + [ThiefStep(id, spurious)] && !outcome.SawEmpty?
      ensures AttemptEnds(start, own, runs, id, outcome)
      ensures id in thieves <==> outcome.Failed? && attempt + 1 < MAX_STEAL_ATTEMPTS
      ensures id in thieves ==> thieves[id] == Starting(attempt + 1)
    {
      ghost var trace := Woven(before, runs[..|before|]);
      LastThiefAccess(start, before, runs, View(), id, spurious);
      var stolen := CasHead(id, attempt, h, task, spurious);
      own := before + [ThiefStep(id, spurious)];
      outcome := if stolen then Stole(task) else Failed;
      assert (trace + [ThiefStep(id, spurious)])[..|trace|] == trace;
    }

    // The thief's last access of an attempt, made from the state s.
    lemma LastThiefAccess(start: State, own: seq<Action>, runs: seq<seq<Action>>, s: State, id: ThiefId, spurious: bool)
      requires |own| <= |runs| && s == RunFrom(start, Woven(own, runs[..|own|]))
      requires StealsNothing(start, Woven(own, runs[..|own|]), id)
      ensures var own' := own + [ThiefStep(id, spurious)];
        && Woven(own', runs[..|own|]) == Woven(own, runs[..|own|]) + [ThiefStep(id, spurious)]
        && RunFrom(start, Woven(own', runs[..|own|])) == ThiefNext(s, id, spurious)
        && (spurious || !CanSteal(s, id) ==> StealsNothing(start, Woven(own', runs[..|own|]), id))
    {
      var trace, a := Woven(own, runs[..|own|]), ThiefStep(id, spurious);
      Ending(own, runs, a);
      RunSnoc(start, trace, a);
      if spurious || !CanSteal(s, id) {
        StealsNothingMore(start, trace, a, [], id);
        assert trace + [a] + [] == trace + [a];
      }
    }

    /** Steal: up to three attempts, with a weak CAS that may fail for no reason; `runs` are
        the others' accesses after each of its own but the last. The item is the task of its
        successful CAS, and without an item none of its CASes succeeded: it has then seen an empty
        deque, or failed three times. */
    method Steal(id: ThiefId, runs: seq<seq<Action>>, spurious: seq<bool>)
      returns (item: Option<Task>, ghost failed: nat, ghost own: seq<Action>)
      requires id !in thieves && |spurious| == MAX_STEAL_ATTEMPTS
      requires |runs| == 12 && forall run | run in runs :: LeavesThief(run, id)
      modifies this, buffer
      ensures failed < MAX_STEAL_ATTEMPTS && id !in thieves
      ensures own == StealSteps(id, failed, 2, spurious) || own == StealSteps(id, failed, 4, spurious)
      ensures item.None? && |own| == 4 * failed + 4 ==> failed == 2
      ensures View() == RunFrom(old(View()), Woven(own, runs[..|own| - 1]))
      ensures item.Some? ==> Steals(old(View()), Woven(own, runs[..|own| - 1]), id, item.value)
      ensures item.None? ==> StealsNothing(old(View()), Woven(own, runs[..|own| - 1]), id)
    {
      var outcome;
      outcome, failed, own := AttemptAll(id, runs, spurious, View());
      item := if outcome.Stole? then Some(outcome.task) else None;
    }

    // Attempts until one ends the call.
    method AttemptAll(id: ThiefId, runs: seq<seq<Action>>, spurious: seq<bool>, ghost start: State)
      returns (outcome: Outcome, ghost failed: nat, ghost own: seq<Action>)
      requires id !in thieves && |spurious| == MAX_STEAL_ATTEMPTS && start == View()
      requires |runs| == 12 && forall run | run in runs :: LeavesThief(run, id)
      modifies this, buffer
      ensures failed < MAX_STEAL_ATTEMPTS && id !in thieves && AttemptEnds(start, own, runs, id, outcome)
      ensures own == StealSteps(id, failed, if outcome.SawEmpty? then 2 else 4, spurious)
      ensures outcome.Failed? ==> failed == 2
    {
      own := [];
      var attempt := 0;
      while true
        invariant attempt < MAX_STEAL_ATTEMPTS && own == FailedSteps(id, attempt, spurious)
        invariant AlongThief(start, own, runs, id)
        invariant if id in thieves then thieves[id] == Starting(attempt) else attempt == 0
        decreases MAX_STEAL_ATTEMPTS - attempt
      {
        failed := attempt;
        outcome, own := AttemptInRow(id, attempt, runs, spurious, start, own);
        if !outcome.Failed? || attempt == MAX_STEAL_ATTEMPTS - 1 {
          return;
        }
        attempt := attempt + 1;
      }
    }

    // An attempt, with the others' accesses that precede the next one if there is one.
    method AttemptInRow(id: ThiefId, attempt: nat, runs: seq<seq<Action>>, spurious: seq<bool>,
                        ghost start: State, ghost before: seq<Action>)
      returns (outcome: Outcome, ghost own: seq<Action>)
      requires if id in thieves then thieves[id] == Starting(attempt) else attempt == 0
      requires attempt < MAX_STEAL_ATTEMPTS == |spurious| && |runs| == 12 && forall run | run in runs :: LeavesThief(run, id)
      requires before == FailedSteps(id, attempt, spurious) && AlongThief(start, before, runs, id)
      modifies this, buffer
      ensures own == StealSteps(id, attempt, if outcome.SawEmpty? then 2 else 4, spurious)
      ensures if outcome.Failed? && attempt + 1 < MAX_STEAL_ATTEMPTS
        then AlongThief(start, own, runs, id) && id in thieves && thieves[id] == Starting(attempt + 1)
        else AttemptEnds(start, own, runs, id, outcome) && id !in thieves
    {
      outcome, own := Attempt(id, attempt, runs, 4 * attempt, spurious[attempt], start, before);
      if outcome.Failed? && attempt + 1 < MAX_STEAL_ATTEMPTS {
        NextAttempt(id, runs, 4 * attempt + 4, start, own);
      }
    }

    // The others' accesses after a failed attempt.
    method NextAttempt(id: ThiefId, runs: seq<seq<Action>>, used: nat, ghost start: State, ghost own: seq<Action>)
      requires 0 < used == |own| <= |runs| && LeavesThief(runs[used - 1], id)
      requires View() == RunFrom(start, Woven(own, runs[..used - 1])) && StealsNothing(start, Woven(own, runs[..used - 1]), id)
      modifies this, buffer
      ensures AlongThief(start, own, runs, id)
      ensures id in thieves <==> id in old(thieves)
      ensures id in thieves ==> thieves[id] == old(thieves)[id]
    {
      ghost var trace := Woven(own, runs[..used - 1]);
      BetweenThief(id, runs[used - 1], start, trace);
      WovenOthers(own, runs[..used - 1], runs[used - 1]);
      assert runs[..used] == runs[..used - 1] + [runs[used - 1]];
      StealsNothingAmong(start, trace, runs[used - 1], id);
    }

    // Whether the deque is empty, read without interference.
    method Empty() returns (empty: bool)
      requires Good(View())
      ensures empty <==> contents == []
    {
      empty := head.low == tail.low;
      RingFullWraps(headCount, |contents|);
    }
  }
}
