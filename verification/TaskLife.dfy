/**
 The two references of a task. `bthread_create` takes a slot and sets the count to two; the
 worker that ran the task drops one after it has finished, and the one join or detach of its
 handle drops the other. Whoever brings the count to zero gives the slot back. Decoding a
 handle, storing and reading the result and the state, waiting, dropping a reference and giving
 the slot back are one step each; `Butex::Wait` may return at any time. `metas` is what the TaskMeta of each slot
 holds, which all tasks that ever use the slot share.
 */
module TaskLife {
  import opened Options
  import opened TaskPool

  // The worker's side.
  datatype Runner =
    | Running
    | Returned              // its result stored
    | Finished              // state FINISHED stored
    | LastOut(w: nat)       // Release() returned true: about to give the slot back
    | Gone

  type Value = nat

  // What a join has read of the result field, null until the task stores it.
  datatype Got = Detached | Read(value: Option<Value>)

  // The side of the one join or detach.
  datatype Closer =
    | Open
    | Joining(worker: Option<nat>, slot: Slot)   // decoded, about to read the state
    | Waiting(worker: Option<nat>, slot: Slot)   // in Butex::Wait
    | Reading(worker: Option<nat>, slot: Slot)   // about to read the result
    | Leaving(worker: Option<nat>, slot: Slot, got: Got)
    | GivingBack(worker: Option<nat>, slot: Slot, got: Got)
    | Closed(got: Got)
    | NotFound              // ESRCH

  // `value` is what its function has returned; `recycled` counts how often the slot was given
  // back for this task.
  datatype Task = Task(
    slot: Slot, generation: nat, runner: Runner, closer: Closer, value: Option<Value>, recycled: nat)

  datatype Meta = Meta(refCount: int, finished: bool, result: Option<Value>)

  datatype System = System(pool: TaskPool.State, metas: map<Slot, Meta>, tasks: seq<Task>)

  datatype Action =
    | Create(creator: Option<nat>)
    | WorkerEnds(w: nat)
    | Return(n: nat, value: Value)
    | Finish(n: nat)
    | RunnerRelease(n: nat, w: nat)
    | RunnerGiveBack(n: nat)
    | Join(n: nat, joiner: Option<nat>)
    | ReadState(n: nat)
    | WaitReturns(n: nat)
    | ReadResult(n: nat)
    | Detach(n: nat)
    | CloserRelease(n: nat)
    | CloserGiveBack(n: nat)

  function Start(size: nat, workers: nat): System {
    System(TaskPool.Start(size, workers), map[], [])
  }

  function Handle(t: Task): nat {
    EncodeId(t.slot, t.generation)
  }

  // ---- One step ----

  function CreateNext(s: System, worker: Option<nat>): System {
    var pool, slot := TaskPool.Apply(s.pool, Take(worker)), TakenSlot(s.pool, worker);
    if slot.None? || slot.value >= |pool.group.deallocs| then s.(pool := pool)
    else
      var t := Task(slot.value, Generation(pool.group, slot.value), Running, Open, None, 0);
      System(pool, s.metas[slot.value := Meta(2, false, None)], s.tasks + [t])
  }

  // Decode the handle; `whenFound` is where the call goes with the slot.
  function DecodeNext(s: System, n: nat, whenFound: Slot -> Closer): System
    requires n < |s.tasks|
  {
    var t := s.tasks[n];
    var slot := DecodeId(s.pool.group, Handle(t));
    s.(tasks := s.tasks[n := t.(closer := if slot.None? then NotFound else whenFound(slot.value))])
  }

  function MetaOf(s: System, slot: Slot): Meta {
    if slot in s.metas then s.metas[slot] else Meta(0, false, None)
  }

  // Drop one reference of the slot's TaskMeta.
  function Dropped(s: System, slot: Slot): map<Slot, Meta> {
    s.metas[slot := MetaOf(s, slot).(refCount := MetaOf(s, slot).refCount - 1)]
  }

  function RunnerReleaseNext(s: System, n: nat, worker: nat): System
    requires n < |s.tasks|
  {
    var t := s.tasks[n];
    System(s.pool, Dropped(s, t.slot),
          s.tasks[n := t.(runner := if MetaOf(s, t.slot).refCount == 1 then LastOut(worker) else Gone)])
  }

  function CloserReleaseNext(s: System, n: nat): System
    requires n < |s.tasks| && s.tasks[n].closer.Leaving?
  {
    var t := s.tasks[n];
    var c := t.closer;
    System(s.pool, Dropped(s, c.slot),
          s.tasks[n := t.(closer :=
            if MetaOf(s, c.slot).refCount == 1 then GivingBack(c.worker, c.slot, c.got) else Closed(c.got))])
  }

  function GiveBackNext(s: System, n: nat, t': Task, worker: Option<nat>, slot: Slot): System
    requires n < |s.tasks|
  {
    s.(pool := TaskPool.Apply(s.pool, GiveBack(worker, slot)), tasks := s.tasks[n := t'])
  }

  function FinishNext(s: System, n: nat): System
    requires n < |s.tasks|
  {
    var t := s.tasks[n];
    System(s.pool, s.metas[t.slot := MetaOf(s, t.slot).(finished := true)], s.tasks[n := t.(runner := Finished)])
  }

  function ReturnNext(s: System, n: nat, value: Value): System
    requires n < |s.tasks|
  {
    var t := s.tasks[n];
    System(s.pool, s.metas[t.slot := MetaOf(s, t.slot).(result := Some(value))],
           s.tasks[n := t.(runner := Returned, value := Some(value))])
  }

  function TaskNext(s: System, n: nat, a: Action): System
    requires n < |s.tasks|
  {
    var t := s.tasks[n];
    match a
    case Return(_, value) => if t.runner.Running? then ReturnNext(s, n, value) else s
    case Finish(_) => if t.runner.Returned? then FinishNext(s, n) else s
    case RunnerRelease(_, w) => if t.runner.Finished? then RunnerReleaseNext(s, n, w) else s
    case RunnerGiveBack(_) =>
      if t.runner.LastOut?
      then GiveBackNext(s, n, t.(runner := Gone, recycled := t.recycled + 1), Some(t.runner.w), t.slot)
      else s
    case Join(_, w) => if t.closer.Open? then DecodeNext(s, n, (slot: Slot) => Joining(w, slot)) else s
    case ReadState(_) =>
      if t.closer.Joining?
      then s.(tasks := s.tasks[n := t.(closer :=
        if MetaOf(s, t.closer.slot).finished then Reading(t.closer.worker, t.closer.slot)
        else Waiting(t.closer.worker, t.closer.slot))])
      else s
    case WaitReturns(_) =>
      if t.closer.Waiting?
      then s.(tasks := s.tasks[n := t.(closer := Reading(t.closer.worker, t.closer.slot))])
      else s
    case ReadResult(_) =>
      if t.closer.Reading?
      then s.(tasks := s.tasks[n := t.(closer :=
        Leaving(t.closer.worker, t.closer.slot, Read(MetaOf(s, t.closer.slot).result)))])
      else s
    case Detach(_) => if t.closer.Open? then DecodeNext(s, n, (slot: Slot) => Leaving(None, slot, Detached)) else s
    case CloserRelease(_) => if t.closer.Leaving? then CloserReleaseNext(s, n) else s
    case CloserGiveBack(_) =>
      if t.closer.GivingBack?
      then GiveBackNext(s, n, t.(closer := Closed(t.closer.got), recycled := t.recycled + 1), t.closer.worker, t.closer.slot)
      else s
    case Create(_) => s
    case WorkerEnds(_) => s
  }

  function Apply(s: System, a: Action): System {
    if a.Create? then CreateNext(s, a.creator)
    else if a.WorkerEnds? then s.(pool := TaskPool.Apply(s.pool, Drain(a.w)))
    else if a.n < |s.tasks| then TaskNext(s, a.n, a)
    else s
  }

  function RunFrom(s: System, actions: seq<Action>): System
    decreases |actions|
  {
    if actions == [] then s else RunFrom(Apply(s, actions[0]), actions[1..])
  }

  // ---- The invariant ----

  predicate Unfinished(r: Runner) {
    r.Running? || r.Returned?
  }

  function RunnerHolds(r: Runner): nat { if Unfinished(r) || r.Finished? then 1 else 0 }

  function CloserHolds(c: Closer): nat {
    if c.Open? || c.Joining? || c.Waiting? || c.Reading? || c.Leaving? then 1 else 0
  }

  predicate Over(t: Task) {
    t.runner.Gone? && t.closer.Closed?
  }

  predicate HasSlot(c: Closer) {
    c.Joining? || c.Waiting? || c.Reading? || c.Leaving? || c.GivingBack?
  }

  predicate HasGot(c: Closer) {
    c.Leaving? || c.GivingBack? || c.Closed?
  }

  // What a task's two sides may be at together.
  predicate SidesInv(t: Task) {
    && !t.closer.NotFound?
    && (t.runner.LastOut? ==> t.closer.Closed?)
    && (t.closer.GivingBack? ==> t.runner.Gone?)
    && (HasSlot(t.closer) ==> t.closer.slot == t.slot)
    && (t.value.Some? <==> !t.runner.Running?)
    && (HasGot(t.closer) && t.closer.got.Read? && t.closer.got.value.Some? ==> t.closer.got.value == t.value)
    && t.recycled == if Over(t) then 1 else 0
  }

  // What the TaskMeta of the task's slot holds.
  function OwnMeta(t: Task): Meta {
    Meta(RunnerHolds(t.runner) + CloserHolds(t.closer), !Unfinished(t.runner), t.value)
  }

  // The slot is the task's own: in use, of its generation, counting its two sides.
  predicate Owns(t: Task, pool: TaskPool.State, metas: map<Slot, Meta>) {
    && t.slot in pool.inUse && t.slot < |pool.group.deallocs| && t.slot in pool.group.created
    && t.generation == Generation(pool.group, t.slot)
    && t.slot in metas && metas[t.slot] == OwnMeta(t)
  }

  predicate TaskInv(t: Task, pool: TaskPool.State, metas: map<Slot, Meta>) {
    SidesInv(t) && (!Over(t) ==> Owns(t, pool, metas))
  }

  predicate Apart(tasks: seq<Task>) {
    forall m, n | 0 <= m < n < |tasks| && !Over(tasks[m]) && !Over(tasks[n]) :: tasks[m].slot != tasks[n].slot
  }

  ghost predicate Inv(s: System) {
    && TaskPool.Inv(s.pool) && |s.pool.group.deallocs| <= 0x1_0000_0000
    && Apart(s.tasks)
    && forall n | 0 <= n < |s.tasks| :: TaskInv(s.tasks[n], s.pool, s.metas)
  }

  // ---- Every step keeps the invariant ----

  // A task whose slot the step does not touch.
  lemma OwnsKept(t: Task, pool: TaskPool.State, metas: map<Slot, Meta>, a: TaskPool.Action, metas': map<Slot, Meta>)
    requires TaskPool.Inv(pool) && Owns(t, pool, metas)
    requires !(a.GiveBack? && a.slot == t.slot)
    requires t.slot in metas' && metas'[t.slot] == metas[t.slot]
    ensures Owns(t, TaskPool.Apply(pool, a), metas')
  {
    UsedKeepsGeneration(pool, a, t.slot);
  }

  lemma CreateKeepsInv(s: System, worker: Option<nat>)
    requires Inv(s)
    ensures Inv(CreateNext(s, worker))
  {
    var s', slot := CreateNext(s, worker), TakenSlot(s.pool, worker);
    TaskPool.ApplyKeepsInv(s.pool, Take(worker));
    TakeIsNew(s.pool, worker);
    ApplyIsLater(s.pool, Take(worker));
    forall n | 0 <= n < |s.tasks| ensures TaskInv(s.tasks[n], s'.pool, s'.metas) {
      if !Over(s.tasks[n]) {
        OwnsKept(s.tasks[n], s.pool, s.metas, Take(worker), s'.metas);
      }
    }
  }

  lemma WorkerEndsKeepsInv(s: System, w: nat)
    requires Inv(s)
    ensures Inv(Apply(s, WorkerEnds(w)))
  {
    TaskPool.ApplyKeepsInv(s.pool, Drain(w));
    ApplyIsLater(s.pool, Drain(w));
    var s' := Apply(s, WorkerEnds(w));
    forall n | 0 <= n < |s.tasks| && !Over(s.tasks[n]) ensures Owns(s.tasks[n], s'.pool, s.metas) {
      OwnsKept(s.tasks[n], s.pool, s.metas, Drain(w), s.metas);
    }
  }

  // A step of one task that leaves the pool alone and at most changes its own slot's meta.
  lemma OwnStepKeepsInv(s: System, n: nat, t: Task, meta: Meta)
    requires Inv(s) && n < |s.tasks| && !Over(s.tasks[n]) && t.slot == s.tasks[n].slot
    requires TaskInv(t, s.pool, s.metas[t.slot := meta])
    ensures Inv(System(s.pool, s.metas[t.slot := meta], s.tasks[n := t]))
  {
    var metas' := s.metas[t.slot := meta];
    forall m | 0 <= m < |s.tasks| && m != n ensures TaskInv(s.tasks[m], s.pool, metas') {
      assert TaskInv(s.tasks[m], s.pool, s.metas);
      if !Over(s.tasks[m]) {
        assert s.tasks[m].slot != t.slot;
      }
    }
  }

  // Giving back the slot ends the task.
  lemma GiveBackKeepsInv(s: System, n: nat, t': Task, worker: Option<nat>)
    requires Inv(s) && n < |s.tasks| && !Over(s.tasks[n])
    requires SidesInv(t') && Over(t')
    ensures Inv(GiveBackNext(s, n, t', worker, s.tasks[n].slot))
  {
    var a := GiveBack(worker, s.tasks[n].slot);
    TaskPool.ApplyKeepsInv(s.pool, a);
    ApplyIsLater(s.pool, a);
    var pool' := TaskPool.Apply(s.pool, a);
    forall m | 0 <= m < |s.tasks| && m != n ensures TaskInv(s.tasks[m], pool', s.metas) {
      assert TaskInv(s.tasks[m], s.pool, s.metas);
      if !Over(s.tasks[m]) {
        assert s.tasks[m].slot != s.tasks[n].slot;
        OwnsKept(s.tasks[m], s.pool, s.metas, a, s.metas);
      }
    }
  }

  lemma HandleDecodes(t: Task, pool: TaskPool.State, metas: map<Slot, Meta>)
    requires Owns(t, pool, metas) && |pool.group.deallocs| <= 0x1_0000_0000
    ensures DecodeId(pool.group, Handle(t)) == Some(t.slot)
  {
    DecodeEncoded(pool.group, t.slot, t.generation);
  }

  lemma SameMeta(metas: map<Slot, Meta>, slot: Slot)
    requires slot in metas
    ensures metas[slot := metas[slot]] == metas
  {
  }

  // The task itself, and its slot's meta, after its step.
  lemma StepOfOwner(s: System, n: nat, t: Task, meta: Meta, s': System)
    requires Inv(s) && n < |s.tasks| && !Over(s.tasks[n]) && !Over(t)
    requires t.slot == s.tasks[n].slot && t.generation == s.tasks[n].generation && SidesInv(t)
    requires meta == OwnMeta(t)
    requires s' == System(s.pool, s.metas[t.slot := meta], s.tasks[n := t])
    ensures Inv(s')
  {
    assert TaskInv(s.tasks[n], s.pool, s.metas);
    assert Owns(t, s.pool, s.metas[t.slot := meta]);
    OwnStepKeepsInv(s, n, t, meta);
  }

  lemma TaskNextKeepsInv(s: System, n: nat, a: Action)
    requires Inv(s) && n < |s.tasks|
    ensures Inv(TaskNext(s, n, a))
  {
    var t := s.tasks[n];
    var s' := TaskNext(s, n, a);
    assert TaskInv(t, s.pool, s.metas);
    if s' != s {
      assert !Over(t);
      HandleDecodes(t, s.pool, s.metas);
      if a.RunnerGiveBack? || a.CloserGiveBack? {
        GiveBackKeepsInv(s, n, s'.tasks[n], if a.RunnerGiveBack? then Some(t.runner.w) else t.closer.worker);
      } else {
        SameMeta(s.metas, t.slot);
        StepOfOwner(s, n, s'.tasks[n], s'.metas[t.slot], s');
      }
    }
  }

  lemma {:induction false} RunKeepsInv(s: System, actions: seq<Action>)
    requires Inv(s)
    ensures Inv(RunFrom(s, actions))
    decreases |actions|
  {
    if actions != [] {
      ApplyKeepsInv(s, actions[0]);
      RunKeepsInv(Apply(s, actions[0]), actions[1..]);
    }
  }

  lemma ApplyKeepsInv(s: System, a: Action)
    requires Inv(s)
    ensures Inv(Apply(s, a))
  {
    if a.Create? {
      CreateKeepsInv(s, a.creator);
    } else if a.WorkerEnds? {
      WorkerEndsKeepsInv(s, a.w);
    } else if a.n < |s.tasks| {
      TaskNextKeepsInv(s, a.n, a);
    }
  }

  lemma InvAlways(size: nat, workers: nat, actions: seq<Action>)
    requires size <= 0x1_0000_0000
    ensures Inv(RunFrom(Start(size, workers), actions))
  {
    TaskPool.InvAlways(size, workers, []);
    assert TaskPool.RunFrom(TaskPool.Start(size, workers), []) == TaskPool.Start(size, workers);
    RunKeepsInv(Start(size, workers), actions);
  }

  // ---- What the runs promise ----

  /** In every interleaving a task's slot is given back at most once, and has been exactly when
      both sides are done, the worker's after the task had finished; only one side is ever about
      to give it back, and then the other is done. */
  lemma RecycledOnceByTheLast(size: nat, workers: nat, actions: seq<Action>, n: nat)
    requires size <= 0x1_0000_0000 && n < |RunFrom(Start(size, workers), actions).tasks|
    ensures var s := RunFrom(Start(size, workers), actions); var t := s.tasks[n];
      && (t.recycled == if t.runner.Gone? && t.closer.Closed? then 1 else 0)
      && (t.runner.LastOut? ==> t.closer.Closed?) && (t.closer.GivingBack? ==> t.runner.Gone?)
      && (t.recycled == 0 ==> t.slot in s.pool.inUse)
  {
    InvAlways(size, workers, actions);
    var s := RunFrom(Start(size, workers), actions);
    assert TaskInv(s.tasks[n], s.pool, s.metas);
  }

  /** Until the join or detach has dropped its own reference its handle decodes to the task's
      slot, and the TaskMeta there is still this task's: never ESRCH, never another task's
      count or state. */
  lemma HandleDecodesUntilRelease(size: nat, workers: nat, actions: seq<Action>, n: nat)
    requires size <= 0x1_0000_0000 && n < |RunFrom(Start(size, workers), actions).tasks|
    ensures var s := RunFrom(Start(size, workers), actions); var t := s.tasks[n];
      && !t.closer.NotFound?
      && (CloserHolds(t.closer) == 1 ==>
        && DecodeId(s.pool.group, Handle(t)) == Some(t.slot) && t.slot in s.metas
        && (t.closer.Open? || t.closer.slot == t.slot)
        && s.metas[t.slot].refCount >= 1 && (s.metas[t.slot].finished <==> !Unfinished(t.runner))
        && s.metas[t.slot].result == t.value)
  {
    InvAlways(size, workers, actions);
    var s := RunFrom(Start(size, workers), actions);
    assert TaskInv(s.tasks[n], s.pool, s.metas);
    if !Over(s.tasks[n]) {
      HandleDecodes(s.tasks[n], s.pool, s.metas);
    }
  }

  /** No two tasks that are not over share a slot, and the worker's side works on its own
      task's TaskMeta until it has dropped its reference. */
  lemma TasksDoNotShare(size: nat, workers: nat, actions: seq<Action>, m: nat, n: nat)
    requires size <= 0x1_0000_0000 && m < n < |RunFrom(Start(size, workers), actions).tasks|
    ensures var tasks := RunFrom(Start(size, workers), actions).tasks;
      tasks[m].recycled == 0 && tasks[n].recycled == 0 ==>
        tasks[m].slot != tasks[n].slot && Handle(tasks[m]) != Handle(tasks[n])
  {
    InvAlways(size, workers, actions);
    var s := RunFrom(Start(size, workers), actions);
    assert TaskInv(s.tasks[m], s.pool, s.metas) && TaskInv(s.tasks[n], s.pool, s.metas);
    if !Over(s.tasks[m]) && !Over(s.tasks[n]) {
      HandleDecodes(s.tasks[m], s.pool, s.metas);
      HandleDecodes(s.tasks[n], s.pool, s.metas);
    }
  }

  function After(size: nat, workers: nat, actions: seq<Action>): System {
    RunFrom(Start(size, workers), actions)
  }

  lemma {:induction false} RunSnocFrom(s: System, actions: seq<Action>, a: Action)
    ensures RunFrom(s, actions + [a]) == Apply(RunFrom(s, actions), a)
    decreases |actions|
  {
    if actions == [] {
      assert [] + [a] == [a] && RunFrom(Apply(s, a), []) == Apply(s, a);
    } else {
      assert (actions + [a])[1..] == actions[1..] + [a];
      RunSnocFrom(Apply(s, actions[0]), actions[1..], a);
    }
  }

  // The k-th action is the join or the detach of task n.
  predicate CalledAt(size: nat, workers: nat, actions: seq<Action>, n: nat, k: nat)
    requires k < |actions|
  {
    && (actions[k] == Detach(n) || (actions[k].Join? && actions[k].n == n))
    && n < |After(size, workers, actions[..k]).tasks|
    && After(size, workers, actions[..k]).tasks[n].closer.Open?
  }

  // Where a detach, or a join on this worker, may be.
  predicate FitsCall(c: Closer, call: Action)
    requires call.Detach? || call.Join?
  {
    if call.Detach? then HasGot(c) && c.got.Detached? && (HasSlot(c) ==> c.worker.None?)
    else
      && (c.Joining? || c.Waiting? || c.Reading? || (HasGot(c) && c.got.Read?))
      && (HasSlot(c) ==> c.worker == call.joiner)
  }

  lemma StepOfCloser(s: System, a: Action, n: nat)
    requires Inv(s) && n < |s.tasks|
    ensures n < |Apply(s, a).tasks|
    ensures var c, c' := s.tasks[n].closer, Apply(s, a).tasks[n].closer;
      && (c'.Open? <==> c.Open? && a != Detach(n) && !(a.Join? && a.n == n))
      && (c.Open? && !c'.Open? ==> FitsCall(c', a))
  {
    assert TaskInv(s.tasks[n], s.pool, s.metas);
    if a.Create? || a.WorkerEnds? || a.n != n {
      assert Apply(s, a).tasks[n] == s.tasks[n];
    } else if s.tasks[n].closer.Open? {
      HandleDecodes(s.tasks[n], s.pool, s.metas);
    }
  }

  lemma StepKeepsCall(s: System, a: Action, n: nat, call: Action)
    requires n < |s.tasks| && (call.Detach? || call.Join?) && FitsCall(s.tasks[n].closer, call)
    ensures n < |Apply(s, a).tasks| && FitsCall(Apply(s, a).tasks[n].closer, call)
  {
    if a.Create? || a.WorkerEnds? || a.n != n {
      assert Apply(s, a).tasks[n] == s.tasks[n];
    } else {
      OwnStepKeepsCall(s, a, n, call);
    }
  }

  lemma OwnStepKeepsCall(s: System, a: Action, n: nat, call: Action)
    requires n < |s.tasks| && (call.Detach? || call.Join?) && FitsCall(s.tasks[n].closer, call)
    ensures n < |TaskNext(s, n, a).tasks| && FitsCall(TaskNext(s, n, a).tasks[n].closer, call)
  {
  }

  /** In every run a task's side that joins or detaches is still open exactly when nobody has done
      either, and is otherwise where the first such call has brought it: a detach never waits, reads
      nothing and gives back to the group; a join reads the result, and gives back by the worker
      it is called on. */
  lemma {:induction false} CloserFollowsItsCall(size: nat, workers: nat, actions: seq<Action>, n: nat)
    requires size <= 0x1_0000_0000 && n < |After(size, workers, actions).tasks|
    ensures var c := After(size, workers, actions).tasks[n].closer;
      && (c.Open? <==> forall k: nat | k < |actions| :: !CalledAt(size, workers, actions, n, k))
      && forall k: nat | k < |actions| && CalledAt(size, workers, actions, n, k) :: FitsCall(c, actions[k])
    decreases |actions|
  {
    if actions != [] {
      var m := |actions| - 1;
      var init, a := actions[..m], actions[m];
      assert actions == init + [a];
      RunSnocFrom(Start(size, workers), init, a);
      InvAlways(size, workers, init);
      var s := After(size, workers, init);
      if n < |s.tasks| {
        CloserFollowsItsCall(size, workers, init, n);
        StepOfCloser(s, a, n);
        CalledSnoc(size, workers, init, a, n);
        forall k: nat | k < m && CalledAt(size, workers, init, n, k)
          ensures FitsCall(Apply(s, a).tasks[n].closer, init[k])
        {
          StepKeepsCall(s, a, n, init[k]);
        }
      } else {
        NewTaskIsOpen(s, a, n);
        NotCalledBefore(size, workers, actions, n, m);
      }
    }
  }

  lemma CalledSnoc(size: nat, workers: nat, actions: seq<Action>, a: Action, n: nat)
    requires n < |After(size, workers, actions).tasks|
    ensures forall k: nat | k < |actions| ::
      CalledAt(size, workers, actions + [a], n, k) <==> CalledAt(size, workers, actions, n, k)
    ensures CalledAt(size, workers, actions + [a], n, |actions|) <==>
      (a == Detach(n) || (a.Join? && a.n == n)) && After(size, workers, actions).tasks[n].closer.Open?
  {
    var whole, m := actions + [a], |actions|;
    assert whole[..m] == actions;
    assert forall i | 0 <= i < m :: whole[..i] == actions[..i] && whole[i] == actions[i];
  }

  lemma NotCalledBefore(size: nat, workers: nat, actions: seq<Action>, n: nat, m: nat)
    requires m + 1 == |actions| && |After(size, workers, actions[..m]).tasks| <= n
    ensures forall k: nat | k < |actions| :: !CalledAt(size, workers, actions, n, k)
  {
    forall k: nat | k < |actions| ensures !CalledAt(size, workers, actions, n, k) {
      assert actions[..m] == actions[..k] + actions[k..m];
      RunParts(Start(size, workers), actions[..k], actions[k..m]);
      TasksStay(After(size, workers, actions[..k]), actions[k..m]);
    }
  }

  /** A join reads its own task's result, or null. */
  lemma JoinReadsOwnResult(size: nat, workers: nat, actions: seq<Action>, n: nat)
    requires size <= 0x1_0000_0000 && n < |After(size, workers, actions).tasks|
    ensures var t := After(size, workers, actions).tasks[n];
      && (HasGot(t.closer) && t.closer.got.Read? && t.closer.got.value.Some? ==> t.closer.got.value == t.value)
      && (Unfinished(t.runner) ==> t.recycled == 0)
  {
    InvAlways(size, workers, actions);
    var s := After(size, workers, actions);
    assert TaskInv(s.tasks[n], s.pool, s.metas);
  }

  // ---- Joins that return too early ----

  // A join of task n that has stopped waiting.
  predicate JoinPast(c: Closer) {
    c.Reading? || (HasGot(c) && c.got.Read?)
  }

  predicate JoinGotNull(c: Closer) {
    HasGot(c) && c.got == Read(None)
  }

  // The wait of the join of task n returns although the task has not finished.
  predicate CutShort(s: System, a: Action, n: nat) {
    a == WaitReturns(n) && n < |s.tasks| && s.tasks[n].closer.Waiting? && Unfinished(s.tasks[n].runner)
  }

  predicate Finishes(s: System, a: Action, n: nat) {
    a == Finish(n) && n < |s.tasks| && s.tasks[n].runner.Returned?
  }

  // The join of task n reads the result before the task has stored it.
  predicate ReadsEarly(s: System, a: Action, n: nat) {
    a == ReadResult(n) && n < |s.tasks| && s.tasks[n].closer.Reading? && s.tasks[n].runner.Running?
  }

  // The k-th action cut the wait of task n's join short, and the task has not finished since.
  predicate CutAt(size: nat, workers: nat, actions: seq<Action>, n: nat, k: nat)
    requires k < |actions|
  {
    && CutShort(After(size, workers, actions[..k]), actions[k], n)
    && forall i | k < i < |actions| :: !Finishes(After(size, workers, actions[..i]), actions[i], n)
  }

  predicate WasCutShort(size: nat, workers: nat, actions: seq<Action>, n: nat) {
    exists k: nat | k < |actions| :: CutAt(size, workers, actions, n, k)
  }

  predicate ReadEarlyAt(size: nat, workers: nat, actions: seq<Action>, n: nat, k: nat)
    requires k < |actions|
  {
    ReadsEarly(After(size, workers, actions[..k]), actions[k], n)
  }

  // What one action does to what task n's sides say about an early return.
  lemma StepsOfJoin(s: System, a: Action, n: nat)
    requires Inv(s) && n < |s.tasks|
    ensures n < |Apply(s, a).tasks|
    ensures var t, t' := s.tasks[n], Apply(s, a).tasks[n];
      && (Unfinished(t'.runner) <==> Unfinished(t.runner) && !Finishes(s, a, n))
      && (Unfinished(t'.runner) ==>
        (JoinPast(t'.closer) <==> JoinPast(t.closer) || CutShort(s, a, n)))
      && (JoinGotNull(t'.closer) <==> JoinGotNull(t.closer) || ReadsEarly(s, a, n))
  {
    assert TaskInv(s.tasks[n], s.pool, s.metas);
    if a.Create? || a.WorkerEnds? || a.n != n || a.n >= |s.tasks| {
      assert Apply(s, a).tasks[n] == s.tasks[n];
    } else {
      OwnStepOfJoin(s, a, n);
    }
  }

  lemma OwnStepOfJoin(s: System, a: Action, n: nat)
    requires n < |s.tasks| && TaskInv(s.tasks[n], s.pool, s.metas) && !a.Create? && !a.WorkerEnds? && a.n == n
    ensures n < |TaskNext(s, n, a).tasks|
    ensures var t, t' := s.tasks[n], TaskNext(s, n, a).tasks[n];
      && (Unfinished(t'.runner) <==> Unfinished(t.runner) && !Finishes(s, a, n))
      && (Unfinished(t'.runner) ==>
        (JoinPast(t'.closer) <==> JoinPast(t.closer) || CutShort(s, a, n)))
      && (JoinGotNull(t'.closer) <==> JoinGotNull(t.closer) || ReadsEarly(s, a, n))
  {
  }

  lemma NewTaskIsOpen(s: System, a: Action, n: nat)
    requires Inv(s) && |s.tasks| <= n < |Apply(s, a).tasks|
    ensures Apply(s, a).tasks[n].closer.Open?
  {
  }

  lemma CutSnoc(size: nat, workers: nat, actions: seq<Action>, a: Action, n: nat)
    ensures WasCutShort(size, workers, actions + [a], n) <==>
      CutShort(After(size, workers, actions), a, n)
      || (WasCutShort(size, workers, actions, n) && !Finishes(After(size, workers, actions), a, n))
  {
    var whole, m := actions + [a], |actions|;
    assert whole[..m] == actions;
    assert forall i | 0 <= i < m :: whole[..i] == actions[..i] && whole[i] == actions[i];
    if WasCutShort(size, workers, whole, n) {
      var k: nat :| k < |whole| && CutAt(size, workers, whole, n, k);
      if k < m {
        CutAtSnoc(size, workers, actions, a, n, k);
      }
    }
    if WasCutShort(size, workers, actions, n) && !Finishes(After(size, workers, actions), a, n) {
      var k: nat :| k < |actions| && CutAt(size, workers, actions, n, k);
      CutAtSnoc(size, workers, actions, a, n, k);
    }
    if CutShort(After(size, workers, actions), a, n) {
      assert CutAt(size, workers, whole, n, m);
    }
  }

  lemma CutAtSnoc(size: nat, workers: nat, actions: seq<Action>, a: Action, n: nat, k: nat)
    requires k < |actions|
    ensures CutAt(size, workers, actions + [a], n, k) <==>
      CutAt(size, workers, actions, n, k) && !Finishes(After(size, workers, actions), a, n)
  {
    var whole, m := actions + [a], |actions|;
    assert whole[..m] == actions;
    assert forall i | 0 <= i < m :: whole[..i] == actions[..i] && whole[i] == actions[i];
    if CutAt(size, workers, whole, n, k) {
      assert !Finishes(After(size, workers, whole[..m]), whole[m], n);
    }
  }

  /** In every run, exactly when a join has stopped waiting for a task that has not finished:
      when its Wait returned before the finish, and the finish has not come since. In particular
      at its release and its return. */
  lemma {:induction false} JoinPastUnfinishedIff(size: nat, workers: nat, actions: seq<Action>, n: nat)
    requires size <= 0x1_0000_0000 && n < |After(size, workers, actions).tasks|
    ensures var t := After(size, workers, actions).tasks[n];
      JoinPast(t.closer) && Unfinished(t.runner) <==> WasCutShort(size, workers, actions, n)
    decreases |actions|
  {
    if actions != [] {
      var init, a := actions[..|actions| - 1], actions[|actions| - 1];
      assert actions == init + [a];
      RunSnocFrom(Start(size, workers), init, a);
      InvAlways(size, workers, init);
      CutSnoc(size, workers, init, a, n);
      var s := After(size, workers, init);
      if n < |s.tasks| {
        StepsOfJoin(s, a, n);
        JoinPastUnfinishedIff(size, workers, init, n);
      } else {
        NewTaskIsOpen(s, a, n);
        NotCutBefore(size, workers, init, n);
      }
    }
  }

  lemma {:induction false} TasksStay(s: System, actions: seq<Action>)
    ensures |s.tasks| <= |RunFrom(s, actions).tasks|
    decreases |actions|
  {
    if actions != [] {
      TasksStay(Apply(s, actions[0]), actions[1..]);
    }
  }

  lemma {:induction false} RunParts(s: System, a: seq<Action>, b: seq<Action>)
    ensures RunFrom(s, a + b) == RunFrom(RunFrom(s, a), b)
    decreases |a|
  {
    if a == [] {
      assert a + b == b;
    } else {
      assert (a + b)[1..] == a[1..] + b;
      RunParts(Apply(s, a[0]), a[1..], b);
    }
  }

  lemma NotCutBefore(size: nat, workers: nat, actions: seq<Action>, n: nat)
    requires |After(size, workers, actions).tasks| <= n
    ensures !WasCutShort(size, workers, actions, n)
  {
    if WasCutShort(size, workers, actions, n) {
      var k: nat :| k < |actions| && CutAt(size, workers, actions, n, k);
      assert actions == actions[..k] + actions[k..];
      RunParts(Start(size, workers), actions[..k], actions[k..]);
      TasksStay(After(size, workers, actions[..k]), actions[k..]);
    }
  }

  /** And exactly when it reads null although its task returns a value: when it came to read
      before the task had stored it, its wait having been cut short. */
  lemma {:induction false} JoinGotNullIff(size: nat, workers: nat, actions: seq<Action>, n: nat)
    requires size <= 0x1_0000_0000 && n < |After(size, workers, actions).tasks|
    ensures JoinGotNull(After(size, workers, actions).tasks[n].closer) <==>
      exists k: nat | k < |actions| ::
        ReadEarlyAt(size, workers, actions, n, k) && WasCutShort(size, workers, actions[..k], n)
    decreases |actions|
  {
    if actions != [] {
      var m := |actions| - 1;
      var init, a := actions[..m], actions[m];
      assert actions == init + [a];
      RunSnocFrom(Start(size, workers), init, a);
      InvAlways(size, workers, init);
      var s := After(size, workers, init);
      assert forall k: nat | k < m :: actions[..k] == init[..k] && actions[k] == init[k];
      assert forall k: nat | k < m ::
        ReadEarlyAt(size, workers, actions, n, k) <==> ReadEarlyAt(size, workers, init, n, k);
      assert ReadEarlyAt(size, workers, actions, n, m) <==> ReadsEarly(s, a, n);
      if n < |s.tasks| {
        StepsOfJoin(s, a, n);
        JoinGotNullIff(size, workers, init, n);
        JoinPastUnfinishedIff(size, workers, init, n);
      } else {
        NewTaskIsOpen(s, a, n);
        NotReadBefore(size, workers, actions, n, m);
      }
    }
  }

  lemma NotReadBefore(size: nat, workers: nat, actions: seq<Action>, n: nat, m: nat)
    requires m + 1 == |actions| && |After(size, workers, actions[..m]).tasks| <= n
    ensures forall k: nat | k < |actions| :: !ReadEarlyAt(size, workers, actions, n, k)
  {
    forall k: nat | k < |actions| ensures !ReadEarlyAt(size, workers, actions, n, k) {
      assert actions[..m] == actions[..k] + actions[k..m];
      RunParts(Start(size, workers), actions[..k], actions[k..m]);
      TasksStay(After(size, workers, actions[..k]), actions[k..m]);
    }
  }

  /** It happens: the wait is cut short, and the join returns null while the task runs. */
  lemma JoinReturnsEarly(first: seq<Action>)
    requires first == [Create(None), Join(0, None), ReadState(0), WaitReturns(0), ReadResult(0), CloserRelease(0)]
    ensures var s := After(1, 0, first);
      |s.tasks| == 1 && s.tasks[0].closer == Closed(Read(None)) && s.tasks[0].runner.Running?
  {
    var s0 := Start(1, 0);
    assert s0.pool.group.free == [0];
    var s1 := Apply(s0, Create(None));
    InvAlways(1, 0, []);
    assert RunFrom(s0, []) == s0;
    ApplyKeepsInv(s0, Create(None));
    assert |s1.tasks| == 1 && s1.tasks[0].closer.Open? && s1.tasks[0].runner.Running?;
    assert TaskInv(s1.tasks[0], s1.pool, s1.metas);
    HandleDecodes(s1.tasks[0], s1.pool, s1.metas);
    FiveSteps(s1, first[1..]);
  }

  lemma FiveSteps(s: System, rest: seq<Action>)
    requires |s.tasks| == 1 && s.tasks[0].closer.Open? && s.tasks[0].runner.Running? && s.tasks[0].slot in s.metas
    requires s.metas[s.tasks[0].slot] == Meta(2, false, None)
    requires DecodeId(s.pool.group, Handle(s.tasks[0])) == Some(s.tasks[0].slot)
    requires rest == [Join(0, None), ReadState(0), WaitReturns(0), ReadResult(0), CloserRelease(0)]
    ensures var s' := RunFrom(s, rest);
      |s'.tasks| == 1 && s'.tasks[0].closer == Closed(Read(None)) && s'.tasks[0].runner.Running?
  {
    var s1 := Apply(s, rest[0]);
    var s2 := Apply(s1, rest[1]);
    var s3 := Apply(s2, rest[2]);
    var s4 := Apply(s3, rest[3]);
    var s5 := Apply(s4, rest[4]);
    assert s4.tasks[0].closer == Leaving(None, s.tasks[0].slot, Read(None)) && s4.metas == s.metas;
    assert rest[1..][1..] == rest[2..] && rest[2..][1..] == rest[3..] && rest[3..][1..] == rest[4..] && rest[4..][1..] == [];
    assert RunFrom(s, rest) == RunFrom(s1, rest[1..]) == RunFrom(s2, rest[2..]) == RunFrom(s3, rest[3..])
      == RunFrom(s4, rest[4..]) == RunFrom(s5, []);
  }
}
