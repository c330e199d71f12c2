/**
 The mutex for tasks on worker threads: a word with a LOCKED and a HAS_WAITERS bit, blocking
 lockers that wait on a butex, coroutine lockers that are handed the lock directly, and
 `unlock`. Each load, CAS or fetch-op of a task is one step, so any sequence of actions is an
 interleaving. `Butex::Wait` may return at any time; once the scheduler has stopped it may
 also return ECANCELED, on which `lock` returns without having acquired anything.
 */
module Mutex {
  import opened Options
  import opened Weaving

  type TaskId = nat

  datatype Word = Word(locked: bool, hasWaiters: bool)

  const Free := Word(false, false)

  datatype Phase =
    | Idle
    | Owner                    // in its critical section
    // lock_bthread
    | FastCas                  // saw 0: CAS 0 -> LOCKED
    | Looping                  // load the word
    | TakeCas(mark: bool)      // saw it unlocked, HAS_WAITERS as given: CAS to LOCKED as well
    | MarkCas                  // saw LOCKED alone: CAS to LOCKED | HAS_WAITERS
    | Recheck                  // load the word again
    | Waiting                  // in Butex::Wait
    // lock_async
    | AsyncTry                 // await_suspend: try_lock
    | AsyncMark                // fetch_or(HAS_WAITERS)
    | AsyncRetry               // try_lock again
    | AsyncUnmark              // the retry succeeded: fetch_and(~HAS_WAITERS)
    | AsyncEnqueue             // the retry failed: push onto the waiter queue
    | Suspended                // until it is handed the lock
    // unlock
    | Dequeuing                // inside dequeue_waiter
    | HandingOff(heir: TaskId) // about to submit the dequeued waiter
    | CheckPending             // load pending_wake_
    | ClearOnly                // a wake is pending: fetch_and(~LOCKED)
    | ClearAndLook             // fetch_and(~LOCKED), and look at the old HAS_WAITERS
    | Announce                 // pending_wake_ += 1
    | Waking                   // bump the butex and wake one
    | Unannounce               // pending_wake_ -= 1

  /** The coroutine waiters: those queued, and the order in which they were pushed, popped
      and made owners. */
  datatype Waiters = Waiters(queue: seq<TaskId>, enqueued: seq<TaskId>, dequeued: seq<TaskId>, granted: seq<TaskId>)

  // `cancelled` says that some lock() has returned because its wait was cancelled.
  datatype State = State(
    word: Word, pending: nat, waiters: Waiters, phase: map<TaskId, Phase>, running: bool, cancelled: bool)

  datatype Action =
    | Lock(t: TaskId)
    | TryLock(t: TaskId)
    | LockAsync(t: TaskId)
    | Unlock(t: TaskId)
    | Step(t: TaskId)
    | WaitReturns(t: TaskId, ecanceled: bool)
    | Shutdown

  const Fresh := State(Free, 0, Waiters([], [], [], []), map[], true, false)

  function PhaseOf(s: State, t: TaskId): Phase {
    if t in s.phase then s.phase[t] else Idle
  }

  // Locking and unlocking are for tasks in the matching phase; only the owner unlocks.
  predicate Enabled(s: State, a: Action) {
    match a
    case Lock(t) => PhaseOf(s, t).Idle?
    case TryLock(t) => PhaseOf(s, t).Idle?
    case LockAsync(t) => PhaseOf(s, t).Idle?
    case Unlock(t) => PhaseOf(s, t).Owner?
    case Step(t) => true
    case WaitReturns(t, ecanceled) => PhaseOf(s, t).Waiting? && (ecanceled ==> !s.running)
    case Shutdown => true
  }

  function Go(s: State, t: TaskId, p: Phase): State {
    s.(phase := s.phase[t := p])
  }

  // try_lock: CAS 0 -> LOCKED.
  function TryCas(s: State, t: TaskId, success: Phase, failure: Phase): State {
    if s.word == Free then Go(s.(word := Word(true, false)), t, success) else Go(s, t, failure)
  }

  function Enqueue(w: Waiters, t: TaskId): Waiters {
    w.(queue := w.queue + [t], enqueued := w.enqueued + [t])
  }

  function Dequeue(w: Waiters): Waiters
    requires w.queue != []
  {
    w.(queue := w.queue[1..], dequeued := w.dequeued + [w.queue[0]])
  }

  function Grant(w: Waiters, t: TaskId): Waiters {
    w.(granted := w.granted + [t])
  }

  // The word, the counter and the task's own phase after a step that touches no queue.
  datatype Local = Local(word: Word, pending: nat, phase: Phase)

  // CAS w -> w', with the phases after success and failure.
  function Cas(word: Word, pending: nat, w: Word, w': Word, success: Phase, failure: Phase): Local {
    if word == w then Local(w', pending, success) else Local(word, pending, failure)
  }

  function LocalStep(p: Phase, word: Word, pending: nat): Local {
    match p
    case FastCas => Cas(word, pending, Free, Word(true, false), Owner, Looping)
    case Looping =>
      Local(word, pending, if !word.locked then TakeCas(word.hasWaiters)
                           else if !word.hasWaiters then MarkCas else Recheck)
    case TakeCas(mark) => Cas(word, pending, Word(false, mark), Word(true, mark), Owner, Looping)
    case MarkCas => Cas(word, pending, Word(true, false), Word(true, true), Recheck, Looping)
    case Recheck => Local(word, pending, if !word.locked then TakeCas(word.hasWaiters) else Waiting)
    case AsyncTry => Cas(word, pending, Free, Word(true, false), Owner, AsyncMark)
    case AsyncMark => Local(Word(word.locked, true), pending, AsyncRetry)
    case AsyncRetry => Cas(word, pending, Free, Word(true, false), AsyncUnmark, AsyncEnqueue)
    case AsyncUnmark => Local(Word(word.locked, false), pending, Owner)
    case Dequeuing => Local(word, pending, CheckPending)
    case CheckPending => Local(word, pending, if pending > 0 then ClearOnly else ClearAndLook)
    case ClearOnly => Local(Word(false, word.hasWaiters), pending, Idle)
    case ClearAndLook => Local(Word(false, word.hasWaiters), pending, if word.hasWaiters then Announce else Idle)
    case Announce => Local(word, pending + 1, Waking)
    case Waking => Local(word, pending, Unannounce)
    case Unannounce => Local(word, if pending > 0 then pending - 1 else 0xFFFF_FFFF, Idle)
    case _ => Local(word, pending, p)
  }

  // The phases that wait for a call, for Wait to return, or for the lock to be handed over.
  predicate Resting(p: Phase) {
    p.Idle? || p.Owner? || p.Waiting? || p.Suspended?
  }

  // The steps that move the waiter queue or another task.
  predicate Queueing(s: State, p: Phase) {
    p.AsyncEnqueue? || p.HandingOff? || (p.Dequeuing? && s.waiters.queue != [])
  }

  function QueueStep(s: State, t: TaskId, p: Phase): State
    requires Queueing(s, p)
  {
    match p
    case AsyncEnqueue => Go(s.(waiters := Enqueue(s.waiters, t)), t, Suspended)
    case Dequeuing => Go(s.(waiters := Dequeue(s.waiters)), t, HandingOff(s.waiters.queue[0]))
    case HandingOff(heir) => Go(Go(s.(waiters := Grant(s.waiters, heir)), heir, Owner), t, Idle)
  }

  function StepOf(s: State, t: TaskId): State {
    var p := PhaseOf(s, t);
    if Resting(p) then s
    else if Queueing(s, p) then QueueStep(s, t, p)
    else
      var l := LocalStep(p, s.word, s.pending);
      Go(s.(word := l.word, pending := l.pending), t, l.phase)
  }

  function Apply(s: State, a: Action): State {
    if !Enabled(s, a) then s else
    match a
    case Lock(t) => Go(s, t, if s.word == Free then FastCas else Looping)
    case TryLock(t) => TryCas(s, t, Owner, Idle)
    case LockAsync(t) => TryCas(s, t, Owner, AsyncTry)
    case Unlock(t) => Go(s, t, Dequeuing)
    case Step(t) => StepOf(s, t)
    case WaitReturns(t, ecanceled) =>
      Go(s.(cancelled := s.cancelled || ecanceled), t, if ecanceled then Owner else Looping)
    case Shutdown => s.(running := false)
  }

  function RunFrom(s: State, run: seq<Action>): State
    decreases |run|
  {
    if run == [] then s else RunFrom(Apply(s, run[0]), run[1..])
  }

  function After(run: seq<Action>): State {
    RunFrom(Fresh, run)
  }

  lemma {:induction false} RunConcat(s: State, a: seq<Action>, b: seq<Action>)
    ensures RunFrom(s, a + b) == RunFrom(RunFrom(s, a), b)
    decreases |a|
  {
    if a == [] {
      assert a + b == b;
    } else {
      assert (a + b)[1..] == a[1..] + b;
      RunConcat(Apply(s, a[0]), a[1..], b);
    }
  }

  lemma RunSnoc(s: State, run: seq<Action>, a: Action)
    ensures RunFrom(s, run + [a]) == Apply(RunFrom(s, run), a)
  {
    RunConcat(s, run, [a]);
    assert RunFrom(RunFrom(s, run), [a]) == RunFrom(Apply(RunFrom(s, run), a), []);
  }

  // ---- The invariant ----

  // The phases in which a task owns the lock: until its fetch_and, or its hand-off.
  predicate Holding(p: Phase) {
    p.Owner? || p.AsyncUnmark? || p.Dequeuing? || p.HandingOff? || p.CheckPending? || p.ClearOnly? || p.ClearAndLook?
  }

  predicate Holds(s: State, t: TaskId) {
    t in s.phase && Holding(s.phase[t])
  }

  /** Mutual exclusion: at most one task holds the lock, and LOCKED is set exactly when
      there is one. */
  ghost predicate Exclusive(s: State) {
    && (forall t, u :: Holds(s, t) && Holds(s, u) ==> t == u)
    && (s.word.locked <==> exists t :: Holds(s, t))
  }

  predicate Distinct(q: seq<TaskId>) {
    forall i, j | 0 <= i < j < |q| :: q[i] != q[j]
  }

  // The queued tasks and the heirs of hand-offs are suspended, and no task is two of them.
  predicate QueueOk(s: State) {
    && Distinct(s.waiters.queue)
    && (forall t | t in s.waiters.queue :: PhaseOf(s, t).Suspended?)
    && (forall t | t in s.phase && s.phase[t].HandingOff? ::
          PhaseOf(s, s.phase[t].heir).Suspended? && s.phase[t].heir !in s.waiters.queue)
    && (forall t, u | t in s.phase && u in s.phase && s.phase[t].HandingOff? && s.phase[u].HandingOff? && t != u ::
          s.phase[t].heir != s.phase[u].heir)
  }

  // The waiters are popped and made owners in the order of their pushes.
  predicate LogsOk(s: State) {
    var w := s.waiters;
    && w.enqueued == w.dequeued + w.queue
    && (forall t | t in s.phase && s.phase[t].HandingOff? :: w.dequeued == w.granted + [s.phase[t].heir])
    && ((forall t | t in s.phase :: !s.phase[t].HandingOff?) ==> w.dequeued == w.granted)
  }

  function Wakers(s: State): set<TaskId> {
    set t | t in s.phase && (s.phase[t].Waking? || s.phase[t].Unannounce?)
  }

  ghost predicate Inv(s: State) {
    Exclusive(s) && QueueOk(s) && LogsOk(s) && s.pending == |Wakers(s)|
  }

  // A change of one task's phase that leaves it holding, or not holding, the lock.
  lemma GoKeepsExclusive(s: State, s': State, t: TaskId, p: Phase)
    requires Exclusive(s) && s'.phase == s.phase[t := p] && s'.word.locked == s.word.locked
    requires Holding(p) <==> Holds(s, t)
    ensures Exclusive(s')
  {
    assert forall u :: Holds(s', u) <==> Holds(s, u);
  }

  lemma AcquireKeepsExclusive(s: State, s': State, t: TaskId, p: Phase)
    requires Exclusive(s) && !s.word.locked && s'.phase == s.phase[t := p] && s'.word.locked && Holding(p)
    ensures Exclusive(s')
  {
    assert Holds(s', t);
    assert forall u :: Holds(s', u) <==> u == t || Holds(s, u);
  }

  lemma ReleaseKeepsExclusive(s: State, s': State, t: TaskId, p: Phase)
    requires Exclusive(s) && Holds(s, t) && s'.phase == s.phase[t := p] && !s'.word.locked && !Holding(p)
    ensures Exclusive(s')
  {
    assert forall u :: Holds(s', u) <==> u != t && Holds(s, u);
  }

  // What a step does to LOCKED and to its own task's holding of the lock.
  lemma LocalHolding(p: Phase, word: Word, pending: nat)
    requires !Resting(p) && !p.AsyncEnqueue? && !p.HandingOff?
    requires Holding(p) ==> word.locked
    ensures var l := LocalStep(p, word, pending);
      if p.ClearOnly? || p.ClearAndLook? then !l.word.locked && !Holding(l.phase)
      else if l.word.locked && !word.locked then Holding(l.phase)
      else l.word.locked == word.locked && (Holding(l.phase) <==> Holding(p))
  {
  }

  lemma LocalQuiet(p: Phase, word: Word, pending: nat)
    requires !Resting(p) && !p.HandingOff?
    ensures !LocalStep(p, word, pending).phase.HandingOff?
  {
  }

  lemma HandOffKeepsExclusive(s: State, t: TaskId)
    requires Exclusive(s) && QueueOk(s) && PhaseOf(s, t).HandingOff?
    ensures Exclusive(StepOf(s, t))
  {
    var heir := PhaseOf(s, t).heir;
    var s' := StepOf(s, t);
    assert Holds(s, t) && !Holds(s, heir) && Holds(s', heir) && !Holds(s', t);
    forall u | u != t && u != heir ensures !Holds(s', u) {
      assert !Holds(s, u);
    }
  }

  lemma StepKeepsExclusive(s: State, t: TaskId)
    requires Exclusive(s) && QueueOk(s)
    ensures Exclusive(StepOf(s, t))
  {
    var p, s' := PhaseOf(s, t), StepOf(s, t);
    if p.HandingOff? {
      HandOffKeepsExclusive(s, t);
    } else if !Resting(p) {
      assert Holding(p) ==> Holds(s, t);
      if !p.AsyncEnqueue? {
        LocalHolding(p, s.word, s.pending);
      }
      if p.ClearOnly? || p.ClearAndLook? {
        ReleaseKeepsExclusive(s, s', t, s'.phase[t]);
      } else if s'.word.locked && !s.word.locked {
        AcquireKeepsExclusive(s, s', t, s'.phase[t]);
      } else {
        GoKeepsExclusive(s, s', t, s'.phase[t]);
      }
    }
  }

  lemma TryKeepsExclusive(s: State, t: TaskId, p: Phase)
    requires Exclusive(s) && PhaseOf(s, t).Idle? && !Holding(p)
    ensures Exclusive(TryCas(s, t, Owner, p))
  {
    if s.word == Free {
      AcquireKeepsExclusive(s, TryCas(s, t, Owner, p), t, Owner);
    } else {
      GoKeepsExclusive(s, TryCas(s, t, Owner, p), t, p);
    }
  }

  lemma ApplyKeepsExclusive(s: State, a: Action)
    requires Exclusive(s) && QueueOk(s) && Enabled(s, a)
    requires !(a.WaitReturns? && a.ecanceled)
    ensures Exclusive(Apply(s, a))
  {
    var s' := Apply(s, a);
    match a {
      case Step(t) => StepKeepsExclusive(s, t);
      case Shutdown => assert forall u :: Holds(s', u) <==> Holds(s, u);
      case Lock(t) => GoKeepsExclusive(s, s', t, s'.phase[t]);
      case TryLock(t) => TryKeepsExclusive(s, t, Idle);
      case LockAsync(t) => TryKeepsExclusive(s, t, AsyncTry);
      case Unlock(t) => GoKeepsExclusive(s, s', t, Dequeuing);
      case WaitReturns(t, _) => GoKeepsExclusive(s, s', t, Looping);
    }
  }

  // A change of one task's phase that is no business of the waiter queue.
  lemma GoKeepsQueue(s: State, s': State, t: TaskId, p: Phase)
    requires s'.phase == s.phase[t := p] && s'.waiters == s.waiters
    requires !PhaseOf(s, t).Suspended? && !PhaseOf(s, t).HandingOff? && !p.HandingOff?
    ensures QueueOk(s) ==> QueueOk(s')
    ensures LogsOk(s) ==> LogsOk(s')
  {
    assert forall u | u in s'.phase && s'.phase[u].HandingOff? :: u in s.phase && s.phase[u] == s'.phase[u];
    if forall u | u in s'.phase :: !s'.phase[u].HandingOff? {
      assert forall u | u in s.phase :: !s.phase[u].HandingOff?;
    }
  }

  lemma EnqueueKeepsQueue(s: State, t: TaskId)
    requires QueueOk(s) && PhaseOf(s, t).AsyncEnqueue?
    ensures QueueOk(StepOf(s, t))
  {
    var s' := StepOf(s, t);
    assert t !in s.waiters.queue && s'.waiters.queue == s.waiters.queue + [t];
    assert forall u | u in s'.phase && s'.phase[u].HandingOff? :: u in s.phase && s.phase[u] == s'.phase[u];
  }

  lemma EnqueueKeepsLogs(s: State, t: TaskId)
    requires LogsOk(s) && PhaseOf(s, t).AsyncEnqueue?
    ensures LogsOk(StepOf(s, t))
  {
    var s' := StepOf(s, t);
    assert forall u | u in s'.phase && s'.phase[u].HandingOff? :: u in s.phase && s.phase[u] == s'.phase[u];
    if forall u | u in s'.phase :: !s'.phase[u].HandingOff? {
      assert forall u | u in s.phase :: !s.phase[u].HandingOff?;
    }
  }

  lemma DequeueKeepsQueue(s: State, t: TaskId)
    requires QueueOk(s) && PhaseOf(s, t).Dequeuing? && s.waiters.queue != []
    ensures QueueOk(StepOf(s, t))
  {
    var s', q := StepOf(s, t), s.waiters.queue;
    assert s'.phase == s.phase[t := HandingOff(q[0])];
    assert q[0] in q && forall u | u in q[1..] :: u in q && u != q[0];
  }

  lemma DequeueKeepsLogs(s: State, t: TaskId)
    requires Exclusive(s) && LogsOk(s) && PhaseOf(s, t).Dequeuing? && s.waiters.queue != []
    ensures LogsOk(StepOf(s, t))
  {
    assert Holds(s, t);
    assert forall u | u in s.phase && s.phase[u].HandingOff? :: Holds(s, u);
    assert StepOf(s, t).phase[t].HandingOff?;
  }

  lemma HandOffKeepsQueue(s: State, t: TaskId)
    requires QueueOk(s) && PhaseOf(s, t).HandingOff?
    ensures QueueOk(StepOf(s, t))
  {
    var s', heir := StepOf(s, t), PhaseOf(s, t).heir;
    assert forall u | u in s'.phase && s'.phase[u].HandingOff? ::
        u in s.phase && s.phase[u] == s'.phase[u] && u != t;
  }

  lemma HandOffKeepsLogs(s: State, t: TaskId)
    requires Exclusive(s) && QueueOk(s) && LogsOk(s) && PhaseOf(s, t).HandingOff?
    ensures LogsOk(StepOf(s, t))
  {
    assert Holds(s, t);
    assert forall u | u in s.phase && s.phase[u].HandingOff? :: Holds(s, u);
    assert forall u | u in StepOf(s, t).phase :: !StepOf(s, t).phase[u].HandingOff?;
  }

  lemma ApplyKeepsQueue(s: State, a: Action)
    requires QueueOk(s)
    ensures QueueOk(Apply(s, a))
    ensures Exclusive(s) && LogsOk(s) ==> LogsOk(Apply(s, a))
  {
    var s' := Apply(s, a);
    if a.Step? && Queueing(s, PhaseOf(s, a.t)) {
      match PhaseOf(s, a.t)
      case HandingOff(_) =>
        HandOffKeepsQueue(s, a.t);
        if Exclusive(s) && LogsOk(s) { HandOffKeepsLogs(s, a.t); }
      case AsyncEnqueue =>
        EnqueueKeepsQueue(s, a.t);
        if LogsOk(s) { EnqueueKeepsLogs(s, a.t); }
      case Dequeuing =>
        DequeueKeepsQueue(s, a.t);
        if Exclusive(s) && LogsOk(s) { DequeueKeepsLogs(s, a.t); }
    } else if s'.phase != s.phase {
      OwnPhaseOnly(s, a);
      GoKeepsQueue(s, s', a.t, s'.phase[a.t]);
    }
  }

  // An action that does not move the waiter queue changes the phase of its own task only.
  lemma OwnPhaseOnly(s: State, a: Action)
    requires !(a.Step? && Queueing(s, PhaseOf(s, a.t)))
    ensures Apply(s, a).waiters == s.waiters
    ensures Apply(s, a).phase != s.phase ==> !a.Shutdown?
    ensures Apply(s, a).phase != s.phase ==>
      && a.t in Apply(s, a).phase && Apply(s, a).phase == s.phase[a.t := Apply(s, a).phase[a.t]]
      && !PhaseOf(s, a.t).Suspended? && !PhaseOf(s, a.t).HandingOff? && !Apply(s, a).phase[a.t].HandingOff?
  {
    if a.Step? && !Resting(PhaseOf(s, a.t)) {
      LocalQuiet(PhaseOf(s, a.t), s.word, s.pending);
    }
  }

  predicate IsWaker(p: Phase) {
    p.Waking? || p.Unannounce?
  }

  lemma LocalWake(p: Phase, word: Word, pending: nat)
    requires !Resting(p)
    ensures var l := LocalStep(p, word, pending);
      && (IsWaker(l.phase) <==> p.Waking? || p.Announce?)
      && l.pending == (if p.Announce? then pending + 1
                       else if p.Unannounce? then (if pending > 0 then pending - 1 else 0xFFFF_FFFF)
                       else pending)
  {
  }

  lemma QueueStepKeepsWakers(s: State, t: TaskId)
    requires QueueOk(s) && Queueing(s, PhaseOf(s, t))
    ensures Wakers(StepOf(s, t)) == Wakers(s)
  {
    if PhaseOf(s, t).HandingOff? {
      assert PhaseOf(s, PhaseOf(s, t).heir).Suspended?;
    }
  }

  // Changing one task's phase adds it to the wakers, removes it, or leaves them as they are.
  lemma GoWakers(s: State, s': State, t: TaskId, p: Phase)
    requires s'.phase == s.phase[t := p]
    ensures Wakers(s') == if IsWaker(p) then Wakers(s) + {t} else Wakers(s) - {t}
  {
  }

  lemma StepKeepsPending(s: State, t: TaskId)
    requires s.pending == |Wakers(s)| && QueueOk(s)
    ensures StepOf(s, t).pending == |Wakers(StepOf(s, t))|
  {
    var p, s' := PhaseOf(s, t), StepOf(s, t);
    if Queueing(s, p) {
      QueueStepKeepsWakers(s, t);
    } else if !Resting(p) {
      LocalWake(p, s.word, s.pending);
      GoWakers(s, s', t, s'.phase[t]);
      assert t in Wakers(s) <==> IsWaker(p);
    }
  }

  /** A counter that never underflows: pending_wake_ counts the tasks between their
      increment and their decrement. */
  lemma ApplyKeepsPending(s: State, a: Action)
    requires s.pending == |Wakers(s)| && QueueOk(s)
    ensures Apply(s, a).pending == |Wakers(Apply(s, a))|
  {
    if a.Step? {
      StepKeepsPending(s, a.t);
    } else {
      assert Wakers(Apply(s, a)) == Wakers(s);
    }
  }

  lemma {:induction false} InvAlways(s: State, run: seq<Action>)
    requires Inv(s)
    ensures !RunFrom(s, run).cancelled ==> Inv(RunFrom(s, run))
    decreases |run|
  {
    if run != [] {
      var s' := Apply(s, run[0]);
      if s'.cancelled {
        CancelledStays(s', run[1..]);
      } else {
        if Enabled(s, run[0]) {
          ApplyKeepsExclusive(s, run[0]);
        }
        ApplyKeepsQueue(s, run[0]);
        ApplyKeepsPending(s, run[0]);
        InvAlways(s', run[1..]);
      }
    }
  }

  lemma {:induction false} CancelledStays(s: State, run: seq<Action>)
    requires s.cancelled
    ensures RunFrom(s, run).cancelled
    decreases |run|
  {
    if run != [] {
      CancelledStays(Apply(s, run[0]), run[1..]);
    }
  }

  // ---- What holds in every interleaving ----

  /** Mutual exclusion, exactly when it holds. As long as no lock() has returned from a
      cancelled wait, at most one task is in its critical section and LOCKED says whether
      there is one; the action that ends it is precisely such a return. */
  lemma ExclusiveIffNotCancelled(run: seq<Action>, a: Action)
    requires !After(run).cancelled
    ensures Exclusive(After(run))
    ensures Exclusive(Apply(After(run), a)) <==>
            !(a.WaitReturns? && a.ecanceled && Enabled(After(run), a))
  {
    InvAlways(Fresh, run);
    var s, s' := After(run), Apply(After(run), a);
    if a.WaitReturns? && a.ecanceled && Enabled(s, a) {
      assert Holds(s', a.t) && !Holds(s, a.t);
      if s.word.locked {
        var u :| Holds(s, u);
        assert Holds(s', u);
      }
    } else if Enabled(s, a) {
      ApplyKeepsExclusive(s, a);
    }
  }

  /** The lock guards its own waiter queue: no two tasks are ever inside dequeue_waiter, so
      the queue has a single consumer. Coroutine waiters are made owners in the order of
      their pushes, each push at most once, and what has been granted, is being handed over
      and is queued is all that was pushed. */
  lemma WaitersServedInOrder(run: seq<Action>, t: TaskId, u: TaskId)
    requires !After(run).cancelled
    ensures var s := After(run);
      && (PhaseOf(s, t).Dequeuing? && PhaseOf(s, u).Dequeuing? ==> t == u)
      && s.waiters.granted <= s.waiters.enqueued
      && (PhaseOf(s, t).HandingOff? ==>
            s.waiters.enqueued == s.waiters.granted + [PhaseOf(s, t).heir] + s.waiters.queue)
  {
    InvAlways(Fresh, run);
    var s := After(run);
    assert PhaseOf(s, t).Dequeuing? ==> Holds(s, t);
    assert PhaseOf(s, u).Dequeuing? ==> Holds(s, u);
    if v :| v in s.phase && s.phase[v].HandingOff? {
      assert s.waiters.dequeued == s.waiters.granted + [s.phase[v].heir];
    }
  }

  /** A hand-off passes the lock on without clearing LOCKED: one owner before, the waiter
      that was queued longest after, and nobody can get in between. */
  lemma HandOffPassesLock(run: seq<Action>, t: TaskId, v: TaskId)
    requires !After(run).cancelled && PhaseOf(After(run), t).HandingOff?
    ensures var s, s' := After(run), StepOf(After(run), t);
      && s.word.locked && s'.word == s.word
      && (Holds(s, v) <==> v == t) && (Holds(s', v) <==> v == PhaseOf(s, t).heir)
      && s'.waiters.granted == s.waiters.granted + [PhaseOf(s, t).heir]
  {
    InvAlways(Fresh, run);
    var s, s' := After(run), StepOf(After(run), t);
    assert Holds(s, t);
    HandOffKeepsExclusive(s, t);
    assert Holds(s', PhaseOf(s, t).heir);
  }

  /** The counter of wakes under way: it is never decremented below zero. */
  lemma PendingCountsWakers(run: seq<Action>)
    ensures !After(run).cancelled ==> After(run).pending == |Wakers(After(run))|
  {
    InvAlways(Fresh, run);
  }

  // ---- Coroutine waiters that no unlock will serve ----

  predicate PastDequeue(p: Phase) {
    p.CheckPending? || p.ClearOnly? || p.ClearAndLook?
  }

  // No owner will look at the waiter queue any more: none, or one whose unlock has done so.
  predicate Passed(s: State) {
    !s.word.locked || exists t | t in s.phase :: PastDequeue(s.phase[t])
  }

  predicate Enqueues(s: State, a: Action) {
    a.Step? && PhaseOf(s, a.t).AsyncEnqueue?
  }

  // At its k-th action a coroutine enqueued itself, and the lock has stayed passed from then on.
  predicate LateAt(run: seq<Action>, k: nat)
    requires k < |run|
  {
    Enqueues(After(run[..k]), run[k]) && forall j | k < j <= |run| :: Passed(After(run[..j]))
  }

  predicate LateEnqueue(run: seq<Action>) {
    exists k: nat | k < |run| :: LateAt(run, k)
  }

  lemma DequeuingNotPassed(s: State, t: TaskId)
    requires Exclusive(s) && PhaseOf(s, t).Dequeuing?
    ensures !Passed(s)
  {
    assert Holds(s, t);
    assert forall u | u in s.phase && PastDequeue(s.phase[u]) :: Holds(s, u);
  }

  lemma WhilePassed(s: State, a: Action)
    requires Exclusive(s) && Passed(s)
    ensures Apply(s, a).waiters.queue == s.waiters.queue + if Enqueues(s, a) then [a.t] else []
  {
    if a.Step? && PhaseOf(s, a.t).Dequeuing? {
      DequeuingNotPassed(s, a.t);
    }
    if !(a.Step? && Queueing(s, PhaseOf(s, a.t))) {
      OwnPhaseOnly(s, a);
    }
  }

  lemma LocalPasses(p: Phase, word: Word, pending: nat)
    requires !Resting(p) && word.locked && !PastDequeue(p)
    ensures LocalStep(p, word, pending).word.locked
    ensures PastDequeue(LocalStep(p, word, pending).phase) ==> p.Dequeuing?
  {
  }

  // Only an unlock that finds the queue empty passes it.
  lemma PassesEmpty(s: State, a: Action)
    requires !Passed(s) && Passed(Apply(s, a))
    ensures Apply(s, a).waiters.queue == [] && !Enqueues(s, a)
  {
    if a.Step? {
      var p := PhaseOf(s, a.t);
      assert !PastDequeue(p);
      if !Resting(p) && !Queueing(s, p) {
        LocalPasses(p, s.word, s.pending);
      }
    }
  }

  lemma LateAtSnoc(run: seq<Action>, a: Action, k: nat)
    requires Passed(After(run + [a])) && k < |run|
    ensures LateAt(run + [a], k) <==> LateAt(run, k)
  {
    var whole, n := run + [a], |run|;
    assert whole[..n + 1] == whole;
    assert forall j | 0 <= j <= n :: whole[..j] == run[..j];
    if LateAt(run, k) {
      forall j | k < j <= n + 1 ensures Passed(After(whole[..j])) {
        assert j <= n ==> Passed(After(run[..j]));
      }
    }
    if LateAt(whole, k) {
      forall j | k < j <= n ensures Passed(After(run[..j])) {
        assert Passed(After(whole[..j]));
      }
    }
  }

  lemma LateAtLast(run: seq<Action>, a: Action)
    requires Passed(After(run + [a]))
    ensures LateAt(run + [a], |run|) <==> Enqueues(After(run), a)
  {
    var whole, n := run + [a], |run|;
    assert whole[..n] == run && whole[..n + 1] == whole;
  }

  lemma LateImpliesPassed(run: seq<Action>)
    requires LateEnqueue(run)
    ensures Passed(After(run))
  {
    assert run[..|run|] == run;
  }

  lemma LateEnqueueSnoc(run: seq<Action>, a: Action)
    requires Passed(After(run + [a]))
    ensures LateEnqueue(run + [a]) <==> Enqueues(After(run), a) || LateEnqueue(run)
  {
    LateAtLast(run, a);
    if LateEnqueue(run + [a]) {
      var k: nat :| k < |run + [a]| && LateAt(run + [a], k);
      if k < |run| {
        LateAtSnoc(run, a, k);
      }
    }
    if LateEnqueue(run) {
      var k: nat :| k < |run| && LateAt(run, k);
      LateAtSnoc(run, a, k);
    }
  }

  /** Exactly when coroutines are left in the queue of a lock that no owner will serve them
      from: when one of them enqueued itself after an unlock had found the queue empty, or when
      there was no owner at all, and the lock has not been taken since. */
  lemma {:induction false} StrandedIffLateEnqueue(run: seq<Action>)
    requires !After(run).cancelled && Passed(After(run))
    ensures After(run).waiters.queue != [] <==> LateEnqueue(run)
    decreases |run|
  {
    if run != [] {
      var init, a := run[..|run| - 1], run[|run| - 1];
      assert run == init + [a];
      RunSnoc(Fresh, init, a);
      InvAlways(Fresh, init);
      LateEnqueueSnoc(init, a);
      if Passed(After(init)) {
        WhilePassed(After(init), a);
        StrandedIffLateEnqueue(init);
      } else {
        PassesEmpty(After(init), a);
        if LateEnqueue(init) {
          LateImpliesPassed(init);
        }
      }
    }
  }

  /** In particular of a free lock. */
  lemma FreeLockStrandsIff(run: seq<Action>)
    requires !After(run).cancelled && !After(run).word.locked
    ensures After(run).waiters.queue != [] <==> LateEnqueue(run)
  {
    StrandedIffLateEnqueue(run);
  }

  predicate AllAtRest(s: State) {
    forall t | t in s.phase :: Resting(s.phase[t]) && !s.phase[t].Owner? && !s.phase[t].Waiting?
  }

  const NoWaiters := Waiters([], [], [], [])

  // Task 1 has the lock and is about to unlock; task 2 has failed both its first tries.
  const AboutToMark := State(Word(true, false), 0, NoWaiters, map[1 := Dequeuing, 2 := AsyncMark], true, false)

  // Task 1 has unlocked.
  const Unlocked := State(Free, 0, NoWaiters, map[1 := Idle, 2 := AsyncMark], true, false)

  lemma LockThenTry(run: seq<Action>)
    requires run == [TryLock(1), LockAsync(2), Step(2), Unlock(1)]
    ensures After(run) == AboutToMark
  {
    var s1 := Apply(Fresh, TryLock(1));
    assert s1 == State(Word(true, false), 0, NoWaiters, map[1 := Owner], true, false);
    var s2 := Apply(s1, LockAsync(2));
    assert s2 == State(Word(true, false), 0, NoWaiters, map[1 := Owner, 2 := AsyncTry], true, false);
    var s3 := Apply(s2, Step(2));
    assert s3 == State(Word(true, false), 0, NoWaiters, map[1 := Owner, 2 := AsyncMark], true, false);
    Unroll4(Fresh, run);
  }

  lemma UnlockUnmarked(run: seq<Action>)
    requires run == [Step(1), Step(1), Step(1)]
    ensures RunFrom(AboutToMark, run) == Unlocked
  {
    var s1 := Apply(AboutToMark, Step(1));
    assert s1 == State(Word(true, false), 0, NoWaiters, map[1 := CheckPending, 2 := AsyncMark], true, false);
    var s2 := Apply(s1, Step(1));
    assert s2 == State(Word(true, false), 0, NoWaiters, map[1 := ClearAndLook, 2 := AsyncMark], true, false);
    Unroll3(AboutToMark, run);
  }

  lemma MarkAndSuspend(run: seq<Action>)
    requires run == [Step(2), Step(2), Step(2)]
    ensures RunFrom(Unlocked, run) ==
      State(Word(false, true), 0, Waiters([2], [2], [], []), map[1 := Idle, 2 := Suspended], true, false)
  {
    var s1 := Apply(Unlocked, Step(2));
    assert s1 == State(Word(false, true), 0, NoWaiters, map[1 := Idle, 2 := AsyncRetry], true, false);
    var s2 := Apply(s1, Step(2));
    assert s2 == State(Word(false, true), 0, NoWaiters, map[1 := Idle, 2 := AsyncEnqueue], true, false);
    Unroll3(Unlocked, run);
  }

  /** What the lock does not promise: an unlock that falls between a coroutine's failed try
      and its HAS_WAITERS mark does not see the coroutine, whose retry then fails on its own
      mark. Here the lock is free, nobody is on the way to it, and task 2 stays suspended in
      the queue. */
  lemma StrandedWaiterHappens(first: seq<Action>, second: seq<Action>, third: seq<Action>)
    requires first == [TryLock(1), LockAsync(2), Step(2), Unlock(1)]
    requires second == [Step(1), Step(1), Step(1)] && third == [Step(2), Step(2), Step(2)]
    ensures var s := After(first + second + third);
      !s.word.locked && s.waiters.queue == [2] && PhaseOf(s, 2).Suspended? && AllAtRest(s)
  {
    LockThenTry(first);
    UnlockUnmarked(second);
    MarkAndSuspend(third);
    RunConcat(Fresh, first, second);
    RunConcat(Fresh, first + second, third);
  }

  lemma Unroll3(s: State, r: seq<Action>)
    requires |r| == 3
    ensures RunFrom(s, r) == Apply(Apply(Apply(s, r[0]), r[1]), r[2])
  {
    var s1 := Apply(s, r[0]);
    var s2 := Apply(s1, r[1]);
    assert r[1..][1..] == r[2..] && r[2..][1..] == [];
    assert RunFrom(s, r) == RunFrom(s1, r[1..]) == RunFrom(s2, r[2..]) == RunFrom(Apply(s2, r[2]), []);
  }

  lemma Unroll4(s: State, r: seq<Action>)
    requires |r| == 4
    ensures RunFrom(s, r) == Apply(Apply(Apply(Apply(s, r[0]), r[1]), r[2]), r[3])
  {
    Unroll3(Apply(s, r[0]), r[1..]);
  }

  // Task 1 has the lock, and task 2 is on its way to wait for it.
  const AboutToWait := State(Word(true, false), 0, NoWaiters, map[1 := Owner, 2 := MarkCas], true, false)

  // The scheduler has stopped, and task 2 waits.
  const StoppedWaiting := State(Word(true, true), 0, NoWaiters, map[1 := Owner, 2 := Waiting], false, false)

  lemma LockThenLoop(run: seq<Action>)
    requires run == [TryLock(1), Lock(2), Step(2)]
    ensures After(run) == AboutToWait
  {
    var s1 := Apply(Fresh, TryLock(1));
    assert s1 == State(Word(true, false), 0, NoWaiters, map[1 := Owner], true, false);
    var s2 := Apply(s1, Lock(2));
    assert s2 == State(Word(true, false), 0, NoWaiters, map[1 := Owner, 2 := Looping], true, false);
    Unroll3(Fresh, run);
  }

  lemma MarkAndWait(run: seq<Action>)
    requires run == [Step(2), Step(2), Shutdown]
    ensures RunFrom(AboutToWait, run) == StoppedWaiting
  {
    var s1 := Apply(AboutToWait, Step(2));
    assert s1 == State(Word(true, true), 0, NoWaiters, map[1 := Owner, 2 := Recheck], true, false);
    var s2 := Apply(s1, Step(2));
    assert s2 == State(Word(true, true), 0, NoWaiters, map[1 := Owner, 2 := Waiting], true, false);
    Unroll3(AboutToWait, run);
  }

  /** A cancelled wait that ends exclusion: the scheduler stops while task 1 has the lock and
      task 2 waits for it, and task 2 returns into its critical section beside task 1. */
  lemma CancelledWaitBreaksExclusion(first: seq<Action>, second: seq<Action>)
    requires first == [TryLock(1), Lock(2), Step(2)] && second == [Step(2), Step(2), Shutdown]
    ensures var s := After(first + second); var s' := Apply(s, WaitReturns(2, true));
      && !s.cancelled && Exclusive(s) && Enabled(s, WaitReturns(2, true))
      && PhaseOf(s', 1).Owner? && PhaseOf(s', 2).Owner? && !Exclusive(s')
  {
    LockThenLoop(first);
    MarkAndWait(second);
    RunConcat(Fresh, first, second);
    ExclusiveIffNotCancelled(first + second, WaitReturns(2, true));
  }

  // ---- HAS_WAITERS is never cleared ----

  // No task is about to clear it, and it is set when one retries.
  predicate MarkInv(s: State) {
    forall t | t in s.phase :: !s.phase[t].AsyncUnmark? && (s.phase[t].AsyncRetry? ==> s.word.hasWaiters)
  }

  lemma LocalKeepsMark(p: Phase, word: Word, pending: nat)
    requires !Resting(p) && !p.AsyncUnmark? && (p.AsyncRetry? ==> word.hasWaiters)
    ensures var l := LocalStep(p, word, pending);
      && !l.phase.AsyncUnmark? && (l.phase.AsyncRetry? ==> l.word.hasWaiters)
      && (word.hasWaiters ==> l.word.hasWaiters)
  {
  }

  lemma ApplyKeepsMark(s: State, a: Action)
    requires MarkInv(s)
    ensures MarkInv(Apply(s, a)) && (s.word.hasWaiters ==> Apply(s, a).word.hasWaiters)
  {
    if a.Step? && !Resting(PhaseOf(s, a.t)) {
      LocalKeepsMark(PhaseOf(s, a.t), s.word, s.pending);
    }
  }

  lemma {:induction false} RunKeepsMark(s: State, run: seq<Action>)
    requires MarkInv(s)
    ensures MarkInv(RunFrom(s, run)) && (s.word.hasWaiters ==> RunFrom(s, run).word.hasWaiters)
    decreases |run|
  {
    if run != [] {
      ApplyKeepsMark(s, run[0]);
      RunKeepsMark(Apply(s, run[0]), run[1..]);
    }
  }

  /** In no run does the retry after marking succeed, so that nothing ever clears HAS_WAITERS:
      once it is set, the word is never 0 again and every later try_lock fails. */
  lemma MarkIsForever(run: seq<Action>, more: seq<Action>, t: TaskId)
    ensures !PhaseOf(After(run), t).AsyncUnmark?
    ensures After(run).word.hasWaiters ==>
      var s := RunFrom(After(run), more);
      && s.word.hasWaiters
      && Apply(s, TryLock(t)).word == s.word && (PhaseOf(s, t).Idle? ==> PhaseOf(Apply(s, TryLock(t)), t).Idle?)
  {
    RunKeepsMark(Fresh, run);
    RunKeepsMark(After(run), more);
  }

  // ---- Tasks that wait ----

  // HAS_WAITERS is set when a task looks at the word for the last time, and while it waits.
  predicate WaitInv(s: State) {
    forall t | t in s.phase :: s.phase[t].Recheck? || s.phase[t].Waiting? ==> s.word.hasWaiters
  }

  lemma LocalKeepsWait(p: Phase, word: Word, pending: nat)
    requires !Resting(p) && !p.AsyncUnmark? && (p.Recheck? ==> word.hasWaiters)
    ensures var l := LocalStep(p, word, pending);
      && (l.phase.Recheck? || l.phase.Waiting? ==> l.word.hasWaiters)
      && (l.phase.Waiting? ==> word.locked && word.hasWaiters)
  {
  }

  lemma ApplyKeepsWait(s: State, a: Action)
    requires MarkInv(s) && WaitInv(s)
    ensures WaitInv(Apply(s, a))
    ensures forall t | PhaseOf(Apply(s, a), t).Waiting? && !PhaseOf(s, t).Waiting? :: s.word == Word(true, true)
  {
    ApplyKeepsMark(s, a);
    if a.Step? && !Resting(PhaseOf(s, a.t)) {
      LocalKeepsWait(PhaseOf(s, a.t), s.word, s.pending);
    }
  }

  lemma {:induction false} RunKeepsWait(s: State, run: seq<Action>)
    requires MarkInv(s) && WaitInv(s)
    ensures MarkInv(RunFrom(s, run)) && WaitInv(RunFrom(s, run))
    decreases |run|
  {
    if run != [] {
      ApplyKeepsMark(s, run[0]);
      ApplyKeepsWait(s, run[0]);
      RunKeepsWait(Apply(s, run[0]), run[1..]);
    }
  }

  /** In every run a task that waits has HAS_WAITERS set for it, and it began to wait at an
      access at which it saw the lock held and marked. */
  lemma WaiterIsMarked(run: seq<Action>, a: Action, t: TaskId)
    ensures PhaseOf(After(run), t).Waiting? ==> After(run).word.hasWaiters
    ensures PhaseOf(Apply(After(run), a), t).Waiting? && !PhaseOf(After(run), t).Waiting? ==> After(run).word == Word(true, true)
  {
    RunKeepsWait(Fresh, run);
    ApplyKeepsWait(After(run), a);
  }

  lemma LocalMarks(p: Phase, word: Word, pending: nat)
    requires !Resting(p) && !word.hasWaiters && LocalStep(p, word, pending).word.hasWaiters
    ensures LocalStep(p, word, pending).phase.Recheck? || LocalStep(p, word, pending).phase.AsyncRetry?
  {
  }

  /** Only a task that is about to wait sets HAS_WAITERS: a blocking one that will look once more, or
      a coroutine that will try once more. */
  lemma MarkedOnlyToWait(s: State, a: Action)
    requires !s.word.hasWaiters && Apply(s, a).word.hasWaiters
    ensures a.Step? && (PhaseOf(Apply(s, a), a.t).Recheck? || PhaseOf(Apply(s, a), a.t).AsyncRetry?)
  {
    if a.Step? {
      LocalMarks(PhaseOf(s, a.t), s.word, s.pending);
    }
  }

  // One step of t, from the state b but for t's phase and the word.
  lemma Moves(b: State, t: TaskId, w: Word, p: Phase, w': Word, p': Phase)
    requires !Resting(p) && !p.AsyncEnqueue? && !p.HandingOff? && !p.Dequeuing?
    requires LocalStep(p, w, b.pending) == Local(w', b.pending, p')
    ensures Apply(b.(word := w, phase := b.phase[t := p]), Step(t)) == b.(word := w', phase := b.phase[t := p'])
  {
    assert b.phase[t := p][t := p'] == b.phase[t := p'];
  }

  lemma LockUnheld(s: State, t: TaskId, run: seq<Action>)
    requires PhaseOf(s, t).Idle? && !s.word.locked && run == [Lock(t), Step(t), Step(t)]
    ensures RunFrom(s, run) == s.(word := Word(true, s.word.hasWaiters), phase := s.phase[t := Owner])
  {
    Unroll3(s, run);
    var w := s.word;
    if w == Free {
      Moves(s, t, w, FastCas, Word(true, false), Owner);
    } else {
      Moves(s, t, w, Looping, w, TakeCas(true));
      Moves(s, t, w, TakeCas(true), Word(true, true), Owner);
    }
  }

  lemma LockHeld(s: State, t: TaskId, run: seq<Action>)
    requires PhaseOf(s, t).Idle? && s.word.locked && run == [Lock(t), Step(t), Step(t), Step(t)]
    ensures RunFrom(s, run) == s.(word := Word(true, true), phase := s.phase[t := Waiting])
  {
    Unroll4(s, run);
    var w, m := s.word, Word(true, true);
    if w.hasWaiters {
      Moves(s, t, w, Looping, m, Recheck);
    } else {
      Moves(s, t, w, Looping, w, MarkCas);
      Moves(s, t, w, MarkCas, m, Recheck);
    }
    Moves(s, t, m, Recheck, m, Waiting);
  }

  /** A lock() that nobody disturbs: on a word without LOCKED, marked or not, the task owns the lock
      after at most three accesses, two for a word that is 0, and the mark is as it was; on one with
      LOCKED it waits after at most four, and the word is marked. */
  lemma LockAlone(s: State, t: TaskId, run: seq<Action>)
    requires PhaseOf(s, t).Idle? && run == [Lock(t), Step(t), Step(t)] + if s.word.locked then [Step(t)] else []
    ensures s.word == Word(false, false) ==>
      Apply(Apply(s, Lock(t)), Step(t)) == s.(word := Word(true, false), phase := s.phase[t := Owner])
    ensures if s.word.locked
      then RunFrom(s, run) == s.(word := Word(true, true), phase := s.phase[t := Waiting])
      else RunFrom(s, run) == s.(word := Word(true, s.word.hasWaiters), phase := s.phase[t := Owner])
  {
    if s.word.locked {
      LockHeld(s, t, run);
    } else {
      LockUnheld(s, t, run);
      if s.word == Free {
        Moves(s, t, Free, FastCas, Word(true, false), Owner);
      }
    }
  }

  /** What the history of a run says of wakes: the tasks that have been waiting without a wake
      since they began to; those that saw a wake pending when they last loaded the counter; and
      whether LOCKED was last cleared by one of these. */
  datatype Wakes = Wakes(unwoken: set<TaskId>, sawWake: set<TaskId>, spared: bool)

  datatype Watched = Watched(s: State, w: Wakes)

  function Sleepers(s: State): set<TaskId> {
    set t | t in s.phase && s.phase[t].Waiting?
  }

  function Watch(x: Watched, a: Action): Watched {
    var s, s' := x.s, Apply(x.s, a);
    var unwoken :=
      if a.Step? && PhaseOf(s, a.t).Waking? then {} else (x.w.unwoken * Sleepers(s')) + (Sleepers(s') - Sleepers(s));
    var sawWake :=
      if !(a.Step? && PhaseOf(s, a.t).CheckPending?) then x.w.sawWake
      else if s.pending > 0 then x.w.sawWake + {a.t} else x.w.sawWake - {a.t};
    var spared := if s.word.locked && !s'.word.locked then !a.Shutdown? && a.t in x.w.sawWake else x.w.spared;
    Watched(s', Wakes(unwoken, sawWake, spared))
  }

  function WatchFrom(x: Watched, run: seq<Action>): Watched
    decreases |run|
  {
    if run == [] then x else WatchFrom(Watch(x, run[0]), run[1..])
  }

  const Unwatched := Watched(Fresh, Wakes({}, {}, false))

  lemma {:induction false} WatchFollows(x: Watched, run: seq<Action>)
    ensures WatchFrom(x, run).s == RunFrom(x.s, run)
    decreases |run|
  {
    if run != [] {
      WatchFollows(Watch(x, run[0]), run[1..]);
    }
  }

  // Somebody is about to wake a waiting task.
  predicate WakeComing(s: State) {
    exists t | t in s.phase :: s.phase[t].Announce? || s.phase[t].Waking?
  }

  predicate WatchInv(x: Watched) {
    && (forall t | t in x.s.phase :: (x.s.phase[t].ClearOnly? ==> t in x.w.sawWake) && (x.s.phase[t].ClearAndLook? ==> t !in x.w.sawWake))
    && x.w.unwoken <= Sleepers(x.s)
    && (x.w.unwoken != {} && !x.s.word.locked && !x.w.spared ==> WakeComing(x.s))
  }

  // What a step of one task does to the phases that matter here.
  lemma LocalRelease(p: Phase, word: Word, pending: nat)
    requires !Resting(p)
    ensures var l := LocalStep(p, word, pending);
      && (l.phase.ClearOnly? <==> p.CheckPending? && pending > 0)
      && (l.phase.ClearAndLook? <==> p.CheckPending? && pending == 0)
      && (word.locked && !l.word.locked ==> p.ClearOnly? || p.ClearAndLook?)
      && (p.ClearAndLook? && word.hasWaiters ==> l.phase.Announce?)
      && (p.Announce? ==> l.phase.Waking?)
  {
  }

  // The looks at the counter are remembered right.
  lemma WatchKeepsLooks(x: Watched, a: Action)
    requires WatchInv(x)
    ensures var y := Watch(x, a);
      forall t | t in y.s.phase ::
        (y.s.phase[t].ClearOnly? ==> t in y.w.sawWake) && (y.s.phase[t].ClearAndLook? ==> t !in y.w.sawWake)
  {
    if a.Step? && !Resting(PhaseOf(x.s, a.t)) {
      LocalRelease(PhaseOf(x.s, a.t), x.s.word, x.s.pending);
    }
  }

  // An action that clears LOCKED, and one that leaves it clear.
  lemma ReleaseKeepsWatch(x: Watched, a: Action)
    requires WatchInv(x) && MarkInv(x.s) && WaitInv(x.s) && x.s.word.locked && !Apply(x.s, a).word.locked
    ensures var y := Watch(x, a); y.w.unwoken != {} && !y.w.spared ==> WakeComing(y.s)
  {
    var s, y := x.s, Watch(x, a);
    assert a.Step? && !Resting(PhaseOf(s, a.t));
    LocalRelease(PhaseOf(s, a.t), s.word, s.pending);
    ApplyKeepsWait(s, a);
    if y.w.unwoken != {} && !y.w.spared {
      assert PhaseOf(s, a.t).ClearAndLook?;
      var t :| t in y.w.unwoken;
      assert t in y.s.phase && y.s.phase[t].Waiting?;
      assert a.t in y.s.phase && y.s.phase[a.t].Announce?;
    }
  }

  lemma UnlockedKeepsWatch(x: Watched, a: Action)
    requires WatchInv(x) && MarkInv(x.s) && WaitInv(x.s) && QueueOk(x.s) && !x.s.word.locked
    ensures var y := Watch(x, a); y.w.unwoken != {} && !y.s.word.locked && !y.w.spared ==> WakeComing(y.s)
  {
    var s, y := x.s, Watch(x, a);
    ApplyKeepsWait(s, a);
    if y.w.unwoken != {} && !y.s.word.locked && !y.w.spared {
      assert y.w.unwoken <= x.w.unwoken;
      var u :| u in s.phase && (s.phase[u].Announce? || s.phase[u].Waking?);
      if a.Step? && PhaseOf(s, a.t).HandingOff? {
        assert PhaseOf(s, PhaseOf(s, a.t).heir).Suspended?;
      }
      AnnouncerStays(s, a, u);
    }
  }

  // A task on its way to the wake stays on it until it has made the wake.
  lemma AnnouncerStays(s: State, a: Action, u: TaskId)
    requires u in s.phase && (s.phase[u].Announce? || s.phase[u].Waking?) && !(a.Step? && PhaseOf(s, a.t).Waking?)
    requires !(a.Step? && PhaseOf(s, a.t) == HandingOff(u))
    ensures WakeComing(Apply(s, a))
  {
    var s' := Apply(s, a);
    if a.Step? && a.t == u {
      LocalRelease(s.phase[u], s.word, s.pending);
    }
    assert u in s'.phase && (s'.phase[u].Announce? || s'.phase[u].Waking?);
  }

  lemma WatchKeepsInv(x: Watched, a: Action)
    requires WatchInv(x) && MarkInv(x.s) && WaitInv(x.s) && QueueOk(x.s)
    ensures WatchInv(Watch(x, a))
  {
    WatchKeepsLooks(x, a);
    if x.s.word.locked && !Apply(x.s, a).word.locked {
      ReleaseKeepsWatch(x, a);
    } else if !x.s.word.locked {
      UnlockedKeepsWatch(x, a);
    }
  }

  lemma {:induction false} WatchInvAlways(x: Watched, run: seq<Action>)
    requires WatchInv(x) && MarkInv(x.s) && WaitInv(x.s) && QueueOk(x.s)
    ensures WatchInv(WatchFrom(x, run))
    decreases |run|
  {
    if run != [] {
      WatchKeepsInv(x, run[0]);
      ApplyKeepsMark(x.s, run[0]);
      ApplyKeepsWait(x.s, run[0]);
      ApplyKeepsQueue(x.s, run[0]);
      WatchInvAlways(Watch(x, run[0]), run[1..]);
    }
  }

  /** When blocked tasks are left behind. In every run, a task that waits on a free lock without a
      wake since it began to, with nobody about to wake it, was passed over: the last task that
      cleared LOCKED had seen the wake of another pending, and made none itself. So an unlock that
      saw none pending, and clears LOCKED while a task waits, always announces a wake. */
  lemma LeftBehindOnlyIfSpared(run: seq<Action>, t: TaskId)
    requires var x := WatchFrom(Unwatched, run); t in x.w.unwoken && !x.s.word.locked && !WakeComing(x.s)
    ensures WatchFrom(Unwatched, run).s == After(run) && PhaseOf(After(run), t).Waiting?
    ensures WatchFrom(Unwatched, run).w.spared
  {
    WatchFollows(Unwatched, run);
    WatchInvAlways(Unwatched, run);
  }

  // ---- A task that is left behind ----

  function At(locked: bool, hasWaiters: bool, pending: nat, phase: map<TaskId, Phase>,
              unwoken: set<TaskId>, sawWake: set<TaskId>, spared: bool): Watched
  {
    Watched(State(Word(locked, hasWaiters), pending, NoWaiters, phase, true, false), Wakes(unwoken, sawWake, spared))
  }

  // The k-th action, and the state before it.
  function Script(k: nat): Action {
    match k
    case 0 => TryLock(1)
    case 1 => Lock(2)
    case 2 => Step(2)
    case 3 => Step(2)
    case 4 => Step(2)
    case 5 => Unlock(1)
    case 6 => Step(1)
    case 7 => Step(1)
    case 8 => Step(1)
    case 9 => Step(1)
    case 10 => Step(1)
    case 11 => WaitReturns(2, false)
    case 12 => Step(2)
    case 13 => Step(2)
    case 14 => Lock(3)
    case 15 => Step(3)
    case 16 => Step(3)
    case 17 => Unlock(2)
    case 18 => Step(2)
    case 19 => Step(2)
    case 20 => Step(2)
    case 21 => Step(1)
    case _ => Shutdown
  }

  function Scene(k: nat): Watched {
    match k
    case 0 => Unwatched
    case 1 => At(true, false, 0, map[1 := Owner], {}, {}, false)
    case 2 => At(true, false, 0, map[1 := Owner, 2 := Looping], {}, {}, false)
    case 3 => At(true, false, 0, map[1 := Owner, 2 := MarkCas], {}, {}, false)
    case 4 => At(true, true, 0, map[1 := Owner, 2 := Recheck], {}, {}, false)
    case 5 => At(true, true, 0, map[1 := Owner, 2 := Waiting], {2}, {}, false)
    case 6 => At(true, true, 0, map[1 := Dequeuing, 2 := Waiting], {2}, {}, false)
    case 7 => At(true, true, 0, map[1 := CheckPending, 2 := Waiting], {2}, {}, false)
    case 8 => At(true, true, 0, map[1 := ClearAndLook, 2 := Waiting], {2}, {}, false)
    case 9 => At(false, true, 0, map[1 := Announce, 2 := Waiting], {2}, {}, false)
    case 10 => At(false, true, 1, map[1 := Waking, 2 := Waiting], {2}, {}, false)
    case 11 => At(false, true, 1, map[1 := Unannounce, 2 := Waiting], {}, {}, false)
    case 12 => At(false, true, 1, map[1 := Unannounce, 2 := Looping], {}, {}, false)
    case 13 => At(false, true, 1, map[1 := Unannounce, 2 := TakeCas(true)], {}, {}, false)
    case 14 => At(true, true, 1, map[1 := Unannounce, 2 := Owner], {}, {}, false)
    case 15 => At(true, true, 1, map[1 := Unannounce, 2 := Owner, 3 := Looping], {}, {}, false)
    case 16 => At(true, true, 1, map[1 := Unannounce, 2 := Owner, 3 := Recheck], {}, {}, false)
    case 17 => At(true, true, 1, map[1 := Unannounce, 2 := Owner, 3 := Waiting], {3}, {}, false)
    case 18 => At(true, true, 1, map[1 := Unannounce, 2 := Dequeuing, 3 := Waiting], {3}, {}, false)
    case 19 => At(true, true, 1, map[1 := Unannounce, 2 := CheckPending, 3 := Waiting], {3}, {}, false)
    case 20 => At(true, true, 1, map[1 := Unannounce, 2 := ClearOnly, 3 := Waiting], {3}, {2}, false)
    case 21 => At(false, true, 1, map[1 := Unannounce, 2 := Idle, 3 := Waiting], {3}, {2}, true)
    case _ => At(false, true, 0, map[1 := Idle, 2 := Idle, 3 := Waiting], {3}, {2}, true)
  }

  lemma Scenes0To4(k: nat)
    requires 0 <= k < 4
    ensures Watch(Scene(k), Script(k)) == Scene(k + 1)
  {
  }

  lemma Scenes4To6(k: nat)
    requires 4 <= k < 6
    ensures Watch(Scene(k), Script(k)) == Scene(k + 1)
  {
  }

  lemma Scenes6To8(k: nat)
    requires 6 <= k < 8
    ensures Watch(Scene(k), Script(k)) == Scene(k + 1)
  {
  }

  lemma Scenes8To10(k: nat)
    requires 8 <= k < 10
    ensures Watch(Scene(k), Script(k)) == Scene(k + 1)
  {
  }

  lemma Scenes10To13(k: nat)
    requires 10 <= k < 13
    ensures Watch(Scene(k), Script(k)) == Scene(k + 1)
  {
  }

  lemma Scenes13To16(k: nat)
    requires 13 <= k < 16
    ensures Watch(Scene(k), Script(k)) == Scene(k + 1)
  {
  }

  lemma Scenes16To18(k: nat)
    requires 16 <= k < 18
    ensures Watch(Scene(k), Script(k)) == Scene(k + 1)
  {
  }

  lemma Scenes18To20(k: nat)
    requires 18 <= k < 20
    ensures Watch(Scene(k), Script(k)) == Scene(k + 1)
  {
  }

  lemma Scenes20To22(k: nat)
    requires 20 <= k < 22
    ensures Watch(Scene(k), Script(k)) == Scene(k + 1)
  {
  }

  function ScriptFrom(k: nat): seq<Action>
    decreases 22 - k
  {
    if k >= 22 then [] else [Script(k)] + ScriptFrom(k + 1)
  }

  lemma SceneStep(k: nat)
    requires k < 22
    ensures Watch(Scene(k), Script(k)) == Scene(k + 1)
  {
    if k < 4 {
      Scenes0To4(k);
    } else if k < 6 {
      Scenes4To6(k);
    } else if k < 8 {
      Scenes6To8(k);
    } else if k < 10 {
      Scenes8To10(k);
    } else if k < 13 {
      Scenes10To13(k);
    } else if k < 16 {
      Scenes13To16(k);
    } else if k < 18 {
      Scenes16To18(k);
    } else if k < 20 {
      Scenes18To20(k);
    } else {
      Scenes20To22(k);
    }
  }

  lemma {:induction false} ScenesFollow(k: nat)
    requires k <= 22
    ensures WatchFrom(Scene(k), ScriptFrom(k)) == Scene(22)
    decreases 22 - k
  {
    if k < 22 {
      SceneStep(k);
      ScenesFollow(k + 1);
      assert ScriptFrom(k)[0] == Script(k) && ScriptFrom(k)[1..] == ScriptFrom(k + 1);
    }
  }

  /** A blocked task that is left behind: task 1 unlocks and wakes task 2, which takes the lock and
      unlocks it while task 1's wake still counts as pending; task 3 has begun to wait in between.
      The lock is free, everybody else is done, and task 3 waits without a wake. */
  lemma LeftBehindHappens(run: seq<Action>)
    requires run == ScriptFrom(0)
    ensures var s := After(run);
      && !s.word.locked && s.pending == 0 && s.waiters.queue == [] && !WakeComing(s)
      && PhaseOf(s, 3).Waiting? && (forall t | t in s.phase && t != 3 :: s.phase[t].Idle?)
    ensures 3 in WatchFrom(Unwatched, run).w.unwoken
  {
    ScenesFollow(0);
    WatchFollows(Unwatched, run);
    LastScene(Scene(22));
  }

  lemma LastScene(x: Watched)
    requires x == Scene(22)
    ensures !x.s.word.locked && x.s.pending == 0 && x.s.waiters.queue == [] && !WakeComing(x.s)
    ensures PhaseOf(x.s, 3).Waiting? && 3 in x.w.unwoken && forall t | t in x.s.phase && t != 3 :: x.s.phase[t].Idle?
  {
  }

  // ---- The code ----

  // No action of the run is taken by t.
  predicate Leaves(run: seq<Action>, t: TaskId) {
    forall a | a in run :: a.Shutdown? || a.t != t
  }

  lemma OtherLeavesPhase(s: State, a: Action, t: TaskId)
    requires QueueOk(s) && !PhaseOf(s, t).Suspended? && (a.Shutdown? || a.t != t)
    ensures PhaseOf(Apply(s, a), t) == PhaseOf(s, t)
  {
    if a.Step? && Queueing(s, PhaseOf(s, a.t)) {
    } else if Apply(s, a).phase != s.phase {
      OwnPhaseOnly(s, a);
    }
  }

  lemma {:induction false} OthersLeavePhase(s: State, run: seq<Action>, t: TaskId)
    requires QueueOk(s) && !PhaseOf(s, t).Suspended? && Leaves(run, t)
    ensures QueueOk(RunFrom(s, run)) && PhaseOf(RunFrom(s, run), t) == PhaseOf(s, t)
    decreases |run|
  {
    if run != [] {
      assert run[0] in run;
      OtherLeavesPhase(s, run[0], t);
      ApplyKeepsQueue(s, run[0]);
      OthersLeavePhase(Apply(s, run[0]), run[1..], t);
    }
  }

  /** The mutex object. `phase` says where each task stands in its call. */
  class Mutex {
    var state: Word
    var pendingWake: nat
    var waiters: Waiters
    var phase: map<TaskId, Phase>
    var running: bool
    ghost var cancelled: bool

    ghost function View(): State
      reads this
    {
      State(state, pendingWake, waiters, phase, running, cancelled)
    }

    constructor ()
      ensures View() == Fresh
    {
      state, pendingWake, waiters, phase := Free, 0, Waiters([], [], [], []), map[];
      running, cancelled := true, false;
    }

    // ---- The accesses of other tasks ----

    method StepAccess(t: TaskId)
      modifies this
      ensures View() == StepOf(old(View()), t)
    {
      var p := if t in phase then phase[t] else Idle;
      if p.AsyncEnqueue? {
        waiters, phase := Enqueue(waiters, t), phase[t := Suspended];
      } else if p.Dequeuing? && waiters.queue != [] {
        waiters, phase := Dequeue(waiters), phase[t := HandingOff(waiters.queue[0])];
      } else if p.HandingOff? {
        waiters, phase := Grant(waiters, p.heir), phase[p.heir := Owner][t := Idle];
      } else if !Resting(p) {
        var l := LocalStep(p, state, pendingWake);
        state, pendingWake, phase := l.word, l.pending, phase[t := l.phase];
      }
    }

    method Access(a: Action)
      modifies this
      ensures View() == Apply(old(View()), a)
    {
      match a {
        case Step(t) => StepAccess(t);
        case Shutdown => running := false;
        case Lock(t) => if t !in phase || phase[t].Idle? {
          phase := phase[t := if state == Free then FastCas else Looping];
        }
        case TryLock(t) => if t !in phase || phase[t].Idle? {
          phase := phase[t := if state == Free then Owner else Idle];
          state := if state == Free then Word(true, false) else state;
        }
        case LockAsync(t) => if t !in phase || phase[t].Idle? {
          phase := phase[t := if state == Free then Owner else AsyncTry];
          state := if state == Free then Word(true, false) else state;
        }
        case Unlock(t) => if t in phase && phase[t].Owner? { phase := phase[t := Dequeuing]; }
        case WaitReturns(t, ecanceled) => if t in phase && phase[t].Waiting? && (ecanceled ==> !running) {
          cancelled := cancelled || ecanceled;
          phase := phase[t := if ecanceled then Owner else Looping];
        }
      }
    }

    method Interfere(run: seq<Action>)
      modifies this
      ensures View() == RunFrom(old(View()), run)
    {
      var i := 0;
      while i < |run|
        invariant 0 <= i <= |run|
        invariant View() == RunFrom(old(View()), run[..i])
      {
        RunSnoc(old(View()), run[..i], run[i]);
        assert run[..i] + [run[i]] == run[..i + 1];
        Access(run[i]);
        i := i + 1;
      }
      assert run[..|run|] == run;
    }

    // The accesses so far, the call's own and the others' after each of them, have led here.
    ghost predicate Along(start: State, own: seq<Action>, runs: seq<seq<Action>>)
      reads this
    {
      |own| <= |runs| && View() == RunFrom(start, Woven(own, runs[..|own|])) && QueueOk(View())
    }

    // There are others' accesses to follow the call's next one.
    ghost predicate Ready(t: TaskId, start: State, own: seq<Action>, runs: seq<seq<Action>>, used: nat)
      reads this
    {
      used == |own| < |runs| && Along(start, own, runs) && forall run | run in runs :: Leaves(run, t)
    }

    // Others' accesses that fall after the call's access a.
    method Then(t: TaskId, a: Action, runs: seq<seq<Action>>, used: nat, ghost start: State, ghost before: seq<Action>)
      returns (ghost own: seq<Action>)
      requires used == |before| < |runs| && forall run | run in runs :: Leaves(run, t)
      requires var s := RunFrom(start, Woven(before, runs[..used]));
        View() == Apply(s, a) && QueueOk(s) && !PhaseOf(View(), t).Suspended?
      modifies this
      ensures own == before + [a] && Along(start, own, runs)
      ensures PhaseOf(View(), t) == PhaseOf(old(View()), t)
    {
      ghost var trace := Woven(before, runs[..used]);
      ApplyKeepsQueue(RunFrom(start, trace), a);
      OthersLeavePhase(View(), runs[used], t);
      RunSnoc(start, trace, a);
      RunConcat(start, trace + [a], runs[used]);
      Interfere(runs[used]);
      Further(before, runs, a);
      own := before + [a];
    }

    // ---- One access of t, and the others' that follow it ----

    // A load of the word, which decides the task's next phase.
    method LoadState(t: TaskId, runs: seq<seq<Action>>, used: nat, ghost start: State, ghost before: seq<Action>)
      returns (w: Word, ghost own: seq<Action>)
      requires PhaseOf(View(), t).Looping? || PhaseOf(View(), t).Recheck?
      requires Ready(t, start, before, runs, used)
      modifies this
      ensures own == before + [Step(t)] && Along(start, own, runs) && w == old(state)
      ensures PhaseOf(View(), t) ==
        (if !w.locked then TakeCas(w.hasWaiters)
         else if old(phase[t]).Recheck? then Waiting
         else if w.hasWaiters then Recheck else MarkCas)
    {
      w := state;
      phase := phase[t := LocalStep(phase[t], w, 0).phase];
      own := Then(t, Step(t), runs, used, start, before);
    }

    // A CAS of the word.
    method CasState(t: TaskId, expected: Word, desired: Word, success: Phase, failure: Phase,
                    runs: seq<seq<Action>>, used: nat, ghost start: State, ghost before: seq<Action>)
      returns (ok: bool, ghost own: seq<Action>)
      requires t in phase && !Resting(phase[t]) && !Queueing(View(), phase[t])
      requires LocalStep(phase[t], state, pendingWake) == Cas(state, pendingWake, expected, desired, success, failure)
      requires Ready(t, start, before, runs, used) && !success.Suspended? && !failure.Suspended?
      modifies this
      ensures own == before + [Step(t)] && Along(start, own, runs) && ok == (old(state) == expected)
      ensures PhaseOf(View(), t) == if ok then success else failure
    {
      ok := state == expected;
      if ok {
        state := desired;
      }
      phase := phase[t := if ok then success else failure];
      own := Then(t, Step(t), runs, used, start, before);
    }

    // fetch_or or fetch_and of HAS_WAITERS.
    method MarkWaiters(t: TaskId, mark: bool, runs: seq<seq<Action>>, used: nat, ghost start: State, ghost before: seq<Action>)
      returns (ghost own: seq<Action>)
      requires PhaseOf(View(), t) == if mark then AsyncMark else AsyncUnmark
      requires Ready(t, start, before, runs, used)
      modifies this
      ensures own == before + [Step(t)] && Along(start, own, runs)
      ensures PhaseOf(View(), t) == if mark then AsyncRetry else Owner
    {
      state := Word(state.locked, mark);
      phase := phase[t := if mark then AsyncRetry else Owner];
      own := Then(t, Step(t), runs, used, start, before);
    }

    // fetch_and(~LOCKED).
    method ClearLocked(t: TaskId, runs: seq<seq<Action>>, used: nat, ghost start: State, ghost before: seq<Action>)
      returns (oldState: Word, ghost own: seq<Action>)
      requires PhaseOf(View(), t).ClearOnly? || PhaseOf(View(), t).ClearAndLook?
      requires Ready(t, start, before, runs, used)
      modifies this
      ensures own == before + [Step(t)] && Along(start, own, runs) && oldState == old(state)
      ensures PhaseOf(View(), t) == if old(phase[t]).ClearAndLook? && oldState.hasWaiters then Announce else Idle
    {
      oldState := state;
      state := Word(false, oldState.hasWaiters);
      phase := phase[t := if phase[t].ClearAndLook? && oldState.hasWaiters then Announce else Idle];
      own := Then(t, Step(t), runs, used, start, before);
    }

    // The last access of a coroutine that suspends.
    method EnqueueWaiter(t: TaskId, ghost start: State, ghost trace: seq<Action>)
      requires PhaseOf(View(), t).AsyncEnqueue? && View() == RunFrom(start, trace)
      modifies this
      ensures View() == RunFrom(start, trace + [Step(t)]) && PhaseOf(View(), t).Suspended?
    {
      RunSnoc(start, trace, Step(t));
      waiters, phase := Enqueue(waiters, t), phase[t := Suspended];
    }

    method DequeueWaiter(t: TaskId, runs: seq<seq<Action>>, used: nat, ghost start: State, ghost before: seq<Action>)
      returns (waiter: Option<TaskId>, ghost own: seq<Action>)
      requires PhaseOf(View(), t).Dequeuing? && Ready(t, start, before, runs, used)
      modifies this
      ensures own == before + [Step(t)] && Along(start, own, runs)
      ensures waiter == if old(waiters).queue == [] then None else Some(old(waiters).queue[0])
      ensures PhaseOf(View(), t) == if waiter.Some? then HandingOff(waiter.value) else CheckPending
    {
      if waiters.queue == [] {
        waiter := None;
        phase := phase[t := CheckPending];
      } else {
        waiter := Some(waiters.queue[0]);
        waiters, phase := Dequeue(waiters), phase[t := HandingOff(waiters.queue[0])];
      }
      own := Then(t, Step(t), runs, used, start, before);
    }

    method SubmitWaiter(t: TaskId, heir: TaskId, runs: seq<seq<Action>>, used: nat, ghost start: State, ghost before: seq<Action>)
      returns (ghost own: seq<Action>)
      requires PhaseOf(View(), t) == HandingOff(heir) && Ready(t, start, before, runs, used)
      modifies this
      ensures own == before + [Step(t)] && Along(start, own, runs) && PhaseOf(View(), t).Idle?
    {
      waiters := Grant(waiters, heir);
      phase := phase[heir := Owner][t := Idle];
      own := Then(t, Step(t), runs, used, start, before);
    }

    method LoadPending(t: TaskId, runs: seq<seq<Action>>, used: nat, ghost start: State, ghost before: seq<Action>)
      returns (others: bool, ghost own: seq<Action>)
      requires PhaseOf(View(), t).CheckPending? && Ready(t, start, before, runs, used)
      modifies this
      ensures own == before + [Step(t)] && Along(start, own, runs) && others == (old(pendingWake) > 0)
      ensures PhaseOf(View(), t) == if others then ClearOnly else ClearAndLook
    {
      others := pendingWake > 0;
      phase := phase[t := if others then ClearOnly else ClearAndLook];
      own := Then(t, Step(t), runs, used, start, before);
    }

    // pending_wake_ += 1, the wake itself, pending_wake_ -= 1: one of the three.
    method WakeStep(t: TaskId, runs: seq<seq<Action>>, used: nat, ghost start: State, ghost before: seq<Action>)
      returns (ghost own: seq<Action>)
      requires IsWaker(PhaseOf(View(), t)) || PhaseOf(View(), t).Announce?
      requires Ready(t, start, before, runs, used)
      modifies this
      ensures own == before + [Step(t)] && Along(start, own, runs)
      ensures PhaseOf(View(), t) ==
        if old(phase[t]).Announce? then Waking else if old(phase[t]).Waking? then Unannounce else Idle
    {
      WakeAccess(t);
      own := Then(t, Step(t), runs, used, start, before);
    }

    method WakeAccess(t: TaskId)
      requires IsWaker(PhaseOf(View(), t)) || PhaseOf(View(), t).Announce?
      modifies `pendingWake, `phase
      ensures View() == StepOf(old(View()), t)
      ensures t in phase && phase[t] ==
        if old(phase[t]).Announce? then Waking else if old(phase[t]).Waking? then Unannounce else Idle
    {
      match phase[t] {
        case Announce => pendingWake, phase := pendingWake + 1, phase[t := Waking];
        case Waking => phase := phase[t := Unannounce];
        case Unannounce =>
          pendingWake := if pendingWake > 0 then pendingWake - 1 else 0xFFFF_FFFF;
          phase := phase[t := Idle];
      }
    }

    // Wait returns, for whatever reason.
    method ReturnFromWait(t: TaskId, ecanceled: bool, runs: seq<seq<Action>>, used: nat, ghost start: State, ghost before: seq<Action>)
      returns (ghost own: seq<Action>)
      requires PhaseOf(View(), t).Waiting? && (ecanceled ==> !running)
      requires Ready(t, start, before, runs, used)
      modifies this
      ensures own == before + [WaitReturns(t, ecanceled)] && Along(start, own, runs)
      ensures PhaseOf(View(), t) == if ecanceled then Owner else Looping
    {
      cancelled := cancelled || ecanceled;
      phase := phase[t := if ecanceled then Owner else Looping];
      own := Then(t, WaitReturns(t, ecanceled), runs, used, start, before);
    }

    // The first accesses of the calls: none for unlock, a try for lock_async, a load for lock.
    method StartUnlock(t: TaskId, runs: seq<seq<Action>>) returns (ghost own: seq<Action>)
      requires PhaseOf(View(), t).Owner? && QueueOk(View()) && runs != [] && forall run | run in runs :: Leaves(run, t)
      modifies this
      ensures own == [Action.Unlock(t)] && Along(old(View()), own, runs) && PhaseOf(View(), t).Dequeuing?
    {
      ghost var start := View();
      phase := phase[t := Dequeuing];
      own := Then(t, Action.Unlock(t), runs, 0, start, []);
    }

    method StartLockAsync(t: TaskId, runs: seq<seq<Action>>) returns (acquired: bool, ghost own: seq<Action>)
      requires PhaseOf(View(), t).Idle? && QueueOk(View()) && runs != [] && forall run | run in runs :: Leaves(run, t)
      modifies this
      ensures own == [Action.LockAsync(t)] && Along(old(View()), own, runs) && acquired == (old(state) == Free)
      ensures PhaseOf(View(), t) == if acquired then Owner else AsyncTry
    {
      ghost var start := View();
      acquired := state == Free;
      if acquired {
        state := Word(true, false);
      }
      phase := phase[t := if acquired then Owner else AsyncTry];
      own := Then(t, Action.LockAsync(t), runs, 0, start, []);
    }

    method StartLock(t: TaskId, runs: seq<seq<Action>>) returns (free: bool, ghost own: seq<Action>)
      requires PhaseOf(View(), t).Idle? && QueueOk(View()) && runs != [] && forall run | run in runs :: Leaves(run, t)
      modifies this
      ensures own == [Lock(t)] && Along(old(View()), own, runs)
      ensures PhaseOf(View(), t) == if free then FastCas else Looping
    {
      ghost var start := View();
      free := state == Free;
      phase := phase[t := if free then FastCas else Looping];
      own := Then(t, Lock(t), runs, 0, start, []);
    }

    // ---- Whole calls, among the accesses of others ----

    // The single compare-and-swap of try_lock.
    method TryLock(t: TaskId) returns (ok: bool)
      requires PhaseOf(View(), t).Idle?
      modifies this
      ensures View() == Apply(old(View()), Action.TryLock(t))
      ensures ok <==> old(state) == Free
      ensures PhaseOf(View(), t) == if ok then Owner else Idle
    {
      ok := state == Free;
      if ok {
        state := Word(true, false);
      }
      phase := phase[t := if ok then Owner else Idle];
    }

    /** unlock: hand the lock to the first coroutine waiter, or clear LOCKED and wake a
        blocked task; `runs` are the others' accesses after each of its own. It hands over, in
        three accesses, exactly when the queue is not empty as it looks into it, and it wakes, in
        seven, exactly when the queue is empty, no wake is pending as it loads the counter, and
        HAS_WAITERS is set as it clears LOCKED; otherwise it makes four. */
    method Unlock(t: TaskId, runs: seq<seq<Action>>) returns (ghost own: seq<Action>)
      requires PhaseOf(View(), t).Owner? && QueueOk(View())
      requires |runs| == 7 && forall run | run in runs :: Leaves(run, t)
      modifies this
      ensures IsCall(own, Action.Unlock(t), t) && (|own| == 3 || |own| == 4 || |own| == 7)
      ensures View() == RunFrom(old(View()), Woven(own, runs[..|own|])) && PhaseOf(View(), t).Idle?
      ensures |own| == 3 <==> StateAt(old(View()), own, runs, 1).waiters.queue != []
      ensures |own| == 7 <==>
        |own| != 3 && StateAt(old(View()), own, runs, 2).pending == 0 && StateAt(old(View()), own, runs, 3).word.hasWaiters
    {
      ghost var start := View();
      own := StartUnlock(t, runs);
      ghost var before := own;
      own := DequeueAndRelease(t, runs, start, own);
      StateAtPrefix(start, before, own, runs, t);
    }

    method DequeueAndRelease(t: TaskId, runs: seq<seq<Action>>, ghost start: State, ghost before: seq<Action>)
      returns (ghost own: seq<Action>)
      requires PhaseOf(View(), t).Dequeuing? && Ready(t, start, before, runs, 1) && |runs| == 7
      modifies this
      ensures |own| == 3 || |own| == 4 || |own| == 7
      ensures Continues(before, own, t) && Along(start, own, runs) && PhaseOf(View(), t).Idle?
      ensures |own| == 3 <==> old(waiters).queue != []
      ensures |own| == 7 <==>
        |own| != 3 && StateAt(start, own, runs, 2).pending == 0 && StateAt(start, own, runs, 3).word.hasWaiters
    {
      var waiter;
      waiter, own := DequeueWaiter(t, runs, 1, start, before);
      if waiter.Some? {
        own := SubmitWaiter(t, waiter.value, runs, 2, start, own);
        return;
      }
      ghost var two := own;
      own := ClearAndWake(t, runs, start, own);
      StateAtPrefix(start, two, own, runs, t);
    }

    // unlock with no coroutine waiting.
    method ClearAndWake(t: TaskId, runs: seq<seq<Action>>, ghost start: State, ghost before: seq<Action>)
      returns (ghost own: seq<Action>)
      requires PhaseOf(View(), t).CheckPending? && Ready(t, start, before, runs, 2) && |runs| == 7
      modifies this
      ensures |own| == 4 || |own| == 7
      ensures Continues(before, own, t) && Along(start, own, runs) && PhaseOf(View(), t).Idle?
      ensures |own| == 7 <==> old(pendingWake) == 0 && StateAt(start, own, runs, 3).word.hasWaiters
    {
      var others;
      others, own := LoadPending(t, runs, 2, start, before);
      ghost var three := own;
      own := ReleaseAndWake(t, others, runs, start, own);
      StateAtPrefix(start, three, own, runs, t);
    }

    method ReleaseAndWake(t: TaskId, others: bool, runs: seq<seq<Action>>, ghost start: State, ghost before: seq<Action>)
      returns (ghost own: seq<Action>)
      requires PhaseOf(View(), t) == (if others then ClearOnly else ClearAndLook)
      requires Ready(t, start, before, runs, 3) && |runs| == 7
      modifies this
      ensures |own| == if !others && old(state).hasWaiters then 7 else 4
      ensures Continues(before, own, t) && Along(start, own, runs) && PhaseOf(View(), t).Idle?
    {
      var oldState;
      oldState, own := ClearLocked(t, runs, 3, start, before);
      if !others && oldState.hasWaiters {
        own := WakeOne(t, runs, start, own);
      }
    }

    method WakeOne(t: TaskId, runs: seq<seq<Action>>, ghost start: State, ghost before: seq<Action>)
      returns (ghost own: seq<Action>)
      requires PhaseOf(View(), t).Announce? && Ready(t, start, before, runs, 4) && |runs| == 7
      modifies this
      ensures own == before + [Step(t), Step(t), Step(t)] && Along(start, own, runs) && PhaseOf(View(), t).Idle?
    {
      own := WakeStep(t, runs, 4, start, before);
      own := WakeStep(t, runs, 5, start, own);
      own := WakeStep(t, runs, 6, start, own);
    }

    /** lock_async: try; mark and try again; or suspend in the waiter queue, to be resumed
        as the owner. `runs` are the others' accesses after each of its own but, when it
        suspends, the last. The first try succeeds exactly on a word that is 0, and so do the
        second and, after the mark, the third. */
    method LockAsync(t: TaskId, runs: seq<seq<Action>>) returns (acquired: bool, ghost own: seq<Action>)
      requires PhaseOf(View(), t).Idle? && QueueOk(View())
      requires |runs| == 5 && forall run | run in runs :: Leaves(run, t)
      modifies this
      ensures IsCall(own, Action.LockAsync(t), t) && (|own| == 1 || |own| == 2 || |own| == 5)
      ensures View() == RunFrom(old(View()), Woven(own, runs[..if acquired then |own| else |own| - 1]))
      ensures PhaseOf(View(), t) == if acquired then Owner else Suspended
      ensures |own| == 1 <==> old(state) == Free
      ensures |own| == 2 <==> |own| != 1 && StateAt(old(View()), own, runs, 1).word == Free
      ensures acquired <==> |own| != 5 || StateAt(old(View()), own, runs, 3).word == Free
    {
      ghost var start := View();
      acquired, own := StartLockAsync(t, runs);
      if acquired {
        return;
      }
      ghost var before := own;
      acquired, own := Suspending(t, runs, start, own);
      StateAtPrefix(start, before, own, runs, t);
    }

    // await_suspend.
    method Suspending(t: TaskId, runs: seq<seq<Action>>, ghost start: State, ghost before: seq<Action>)
      returns (acquired: bool, ghost own: seq<Action>)
      requires PhaseOf(View(), t).AsyncTry? && Ready(t, start, before, runs, 1) && |runs| == 5
      modifies this
      ensures Continues(before, own, t) && (|own| == 2 || |own| == 5)
      ensures View() == RunFrom(start, Woven(own, runs[..if acquired then |own| else |own| - 1]))
      ensures PhaseOf(View(), t) == if acquired then Owner else Suspended
      ensures |own| == 2 <==> old(state) == Free
      ensures acquired <==> |own| != 5 || StateAt(start, own, runs, 3).word == Free
    {
      acquired, own := CasState(t, Free, Word(true, false), Owner, AsyncMark, runs, 1, start, before);
      if acquired {
        return;
      }
      acquired, own := RetryMarked(t, runs, start, own);
    }

    // The rest of await_suspend after its first try has failed.
    method RetryMarked(t: TaskId, runs: seq<seq<Action>>, ghost start: State, ghost before: seq<Action>)
      returns (acquired: bool, ghost own: seq<Action>)
      requires PhaseOf(View(), t).AsyncMark? && Ready(t, start, before, runs, 2) && |runs| == 5
      modifies this
      ensures own == before + [Step(t), Step(t), Step(t)]
      ensures View() == RunFrom(start, Woven(own, runs[..if acquired then 5 else 4]))
      ensures PhaseOf(View(), t) == if acquired then Owner else Suspended
      ensures acquired <==> StateAt(start, own, runs, 3).word == Free
    {
      own := MarkWaiters(t, true, runs, 2, start, before);
      ghost var marked := own;
      acquired, own := RetryAfterMark(t, runs, start, own);
      assert marked + [Step(t), Step(t)] == before + [Step(t), Step(t), Step(t)];
      StateAtPrefix(start, marked, own, runs, t);
    }

    // The third try. In no run from the start does it succeed (MarkIsForever).
    method RetryAfterMark(t: TaskId, runs: seq<seq<Action>>, ghost start: State, ghost before: seq<Action>)
      returns (acquired: bool, ghost own: seq<Action>)
      requires PhaseOf(View(), t).AsyncRetry? && Ready(t, start, before, runs, 3) && |runs| == 5
      modifies this
      ensures own == before + [Step(t), Step(t)] && acquired == (old(state) == Free)
      ensures View() == RunFrom(start, Woven(own, runs[..if acquired then 5 else 4]))
      ensures PhaseOf(View(), t) == if acquired then Owner else Suspended
    {
      acquired, own := CasState(t, Free, Word(true, false), AsyncUnmark, AsyncEnqueue, runs, 3, start, before);
      own := EndRetry(t, acquired, runs, start, own);
    }

    // Unmark after a successful retry, enqueue after a failed one.
    method EndRetry(t: TaskId, acquired: bool, runs: seq<seq<Action>>, ghost start: State, ghost before: seq<Action>)
      returns (ghost own: seq<Action>)
      requires PhaseOf(View(), t) == if acquired then AsyncUnmark else AsyncEnqueue
      requires Ready(t, start, before, runs, 4) && |runs| == 5
      modifies this
      ensures own == before + [Step(t)]
      ensures View() == RunFrom(start, Woven(own, runs[..if acquired then 5 else 4]))
      ensures PhaseOf(View(), t) == if acquired then Owner else Suspended
    {
      if acquired {
        own := MarkWaiters(t, false, runs, 4, start, before);
      } else {
        own := Suspend(t, runs, start, before);
      }
    }

    method Suspend(t: TaskId, runs: seq<seq<Action>>, ghost start: State, ghost before: seq<Action>)
      returns (ghost own: seq<Action>)
      requires PhaseOf(View(), t).AsyncEnqueue? && Along(start, before, runs) && |before| == 4
      modifies this
      ensures own == before + [Step(t)] && View() == RunFrom(start, Woven(own, runs[..4]))
      ensures PhaseOf(View(), t).Suspended?
    {
      WovenOwn(before, runs[..4], Step(t));
      EnqueueWaiter(t, start, Woven(before, runs[..4]));
      own := before + [Step(t)];
    }

    // One round of the loop of lock_bthread, up to the wait: at most four accesses, of which
    // the call has made `used` before.
    method LockRound(t: TaskId, runs: seq<seq<Action>>, used: nat, ghost start: State, ghost before: seq<Action>)
      returns (used': nat, ghost own: seq<Action>)
      requires PhaseOf(View(), t).Looping? && Ready(t, start, before, runs, used) && used + 4 <= |runs|
      modifies this
      ensures used < used' == |own| <= used + 4 && Continues(before, own, t) && Along(start, own, runs)
      ensures PhaseOf(View(), t).Owner? || PhaseOf(View(), t).Looping? || PhaseOf(View(), t).Waiting?
    {
      var w;
      w, own := LoadState(t, runs, used, start, before);
      used' := used + 1;
      if w.locked {
        used', own := HeldRound(t, w.hasWaiters, runs, used', start, own);
      } else {
        own := TakeUnlocked(t, w.hasWaiters, runs, used', start, own);
        used' := used' + 1;
      }
    }

    // The rest of a round after the lock was seen held: mark it unless it is marked, look again.
    method HeldRound(t: TaskId, marked: bool, runs: seq<seq<Action>>, used: nat, ghost start: State, ghost before: seq<Action>)
      returns (used': nat, ghost own: seq<Action>)
      requires PhaseOf(View(), t) == (if marked then Recheck else MarkCas)
      requires Ready(t, start, before, runs, used) && used + 3 <= |runs|
      modifies this
      ensures used < used' == |own| <= used + 3 && Continues(before, own, t) && Along(start, own, runs)
      ensures PhaseOf(View(), t).Owner? || PhaseOf(View(), t).Looping? || PhaseOf(View(), t).Waiting?
    {
      used', own := used, before;
      if !marked {
        var ok;
        ok, own := CasState(t, Word(true, false), Word(true, true), Recheck, Looping, runs, used, start, before);
        used' := used + 1;
        if !ok {
          return;
        }
      }
      used', own := LookAgain(t, runs, used', start, own);
    }

    method LookAgain(t: TaskId, runs: seq<seq<Action>>, used: nat, ghost start: State, ghost before: seq<Action>)
      returns (used': nat, ghost own: seq<Action>)
      requires PhaseOf(View(), t).Recheck? && Ready(t, start, before, runs, used) && used + 2 <= |runs|
      modifies this
      ensures used < used' == |own| <= used + 2 && Continues(before, own, t) && Along(start, own, runs)
      ensures PhaseOf(View(), t).Owner? || PhaseOf(View(), t).Looping? || PhaseOf(View(), t).Waiting?
    {
      var w;
      w, own := LoadState(t, runs, used, start, before);
      used' := used + 1;
      if !w.locked {
        own := TakeUnlocked(t, w.hasWaiters, runs, used', start, own);
        used' := used' + 1;
      }
    }

    // The CAS of a word that was seen unlocked.
    method TakeUnlocked(t: TaskId, mark: bool, runs: seq<seq<Action>>, used: nat, ghost start: State, ghost before: seq<Action>)
      returns (ghost own: seq<Action>)
      requires PhaseOf(View(), t) == TakeCas(mark) && Ready(t, start, before, runs, used)
      modifies this
      ensures own == before + [Step(t)] && Along(start, own, runs)
      ensures PhaseOf(View(), t).Owner? || PhaseOf(View(), t).Looping?
    {
      var _, own' := CasState(t, Word(false, mark), Word(true, mark), Owner, Looping, runs, used, start, before);
      own := own';
    }

    /** lock_bthread: the fast path, then rounds of the loop with waits between them, for as
        many rounds as `runs`, the others' accesses after each of its own, and `cancels` are
        for. `cancels` are the waits that report a cancellation if the scheduler has stopped
        by then; the call returns as the owner or because of such a wait. */
    method LockBthread(t: TaskId, runs: seq<seq<Action>>, cancels: seq<bool>)
      returns (returned: bool, ghost own: seq<Action>)
      requires PhaseOf(View(), t).Idle? && QueueOk(View())
      requires |runs| >= 2 && forall run | run in runs :: Leaves(run, t)
      modifies this
      ensures IsCall(own, Lock(t), t) && |own| <= |runs|
      ensures View() == RunFrom(old(View()), Woven(own, runs[..|own|]))
      ensures PhaseOf(View(), t) == if returned then Owner else Looping
      ensures !returned ==> |own| + 5 > |runs| || |own| > |cancels|
      ensures WaitReturns(t, true) in own ==> returned && own[|own| - 1] == WaitReturns(t, true)
    {
      ghost var start := View();
      var used;
      returned, used, own := FastPath(t, runs);
      var i := 0;
      while !returned && used + 5 <= |runs| && i < |cancels|
        invariant 0 <= i <= |cancels| && |own| == used && i < used && IsCall(own, Lock(t), t) && Along(start, own, runs)
        invariant PhaseOf(View(), t) == if returned then Owner else Looping
        invariant CancelledLast(own, t, returned)
        decreases |cancels| - i
      {
        used, returned, own := LockTurn(t, runs, used, cancels[i], start, own);
        i := i + 1;
      }
      CancelledIsLast(own, t, returned);
    }

    // The load of the word and, if it was 0, the CAS.
    method FastPath(t: TaskId, runs: seq<seq<Action>>) returns (returned: bool, used: nat, ghost own: seq<Action>)
      requires PhaseOf(View(), t).Idle? && QueueOk(View())
      requires |runs| >= 2 && forall run | run in runs :: Leaves(run, t)
      modifies this
      ensures 0 < used == |own| && IsCall(own, Lock(t), t) && Along(old(View()), own, runs)
      ensures PhaseOf(View(), t) == if returned then Owner else Looping
      ensures CancelledLast(own, t, returned)
    {
      ghost var start := View();
      var free;
      free, own := StartLock(t, runs);
      returned, used := false, 1;
      if free {
        returned, own := CasState(t, Free, Word(true, false), Owner, Looping, runs, 1, start, own);
        used := 2;
      }
    }

    // A round and the wait after it.
    method LockTurn(t: TaskId, runs: seq<seq<Action>>, used: nat, cancel: bool, ghost start: State, ghost before: seq<Action>)
      returns (used': nat, returned: bool, ghost own: seq<Action>)
      requires PhaseOf(View(), t).Looping? && Ready(t, start, before, runs, used) && used + 5 <= |runs|
      requires IsCall(before, Lock(t), t) && CancelledLast(before, t, false)
      modifies this
      ensures used < used' == |own| && IsCall(own, Lock(t), t) && Along(start, own, runs)
      ensures PhaseOf(View(), t) == if returned then Owner else Looping
      ensures CancelledLast(own, t, returned)
    {
      used', own := LockRound(t, runs, used, start, before);
      CallContinues(before, own, t);
      if phase[t].Waiting? {
        var ecanceled := cancel && !running;
        own := ReturnFromWait(t, ecanceled, runs, used', start, own);
        used' := used' + 1;
      }
      returned := phase[t].Owner?;
    }
  }

  // The state in which a call makes its k-th access, counted from 0.
  ghost function StateAt(start: State, own: seq<Action>, runs: seq<seq<Action>>, k: nat): State
    requires k <= |own| && k <= |runs|
  {
    RunFrom(start, Woven(own[..k], runs[..k]))
  }

  lemma StateAtPrefix(start: State, before: seq<Action>, own: seq<Action>, runs: seq<seq<Action>>, t: TaskId)
    requires Continues(before, own, t) && |own| <= |runs|
    ensures StateAt(start, own, runs, |before|) == RunFrom(start, Woven(before, runs[..|before|]))
  {
  }

  // A cancelled wait is the last access of the call.
  predicate CancelledLast(own: seq<Action>, t: TaskId, returned: bool) {
    forall i | 0 <= i < |own| && own[i] == WaitReturns(t, true) :: returned && i == |own| - 1
  }

  lemma CancelledIsLast(own: seq<Action>, t: TaskId, returned: bool)
    requires CancelledLast(own, t, returned)
    ensures WaitReturns(t, true) in own ==> returned && own[|own| - 1] == WaitReturns(t, true)
  {
  }

  lemma CallContinues(before: seq<Action>, own: seq<Action>, t: TaskId)
    requires IsCall(before, Lock(t), t) && CancelledLast(before, t, false) && Continues(before, own, t)
    ensures IsCall(own, Lock(t), t) && CancelledLast(own, t, false)
  {
    assert forall i | 0 <= i < |before| :: own[i] == own[..|before|][i] == before[i];
  }

  // A call's own accesses: its first, and then its task's steps and returns from waits.
  predicate IsCall(own: seq<Action>, first: Action, t: TaskId) {
    own != [] && own[0] == first && forall i | 0 < i < |own| :: OwnAccess(own[i], t)
  }

  predicate OwnAccess(a: Action, t: TaskId) {
    (a.Step? || a.WaitReturns?) && a.t == t
  }

  predicate Continues(before: seq<Action>, own: seq<Action>, t: TaskId) {
    |before| <= |own| && own[..|before|] == before && forall i | |before| <= i < |own| :: own[i] == Step(t)
  }
}
