/**
 The calls that handle a task's references, on the objects: `bthread_create`, the release that a
 join and a finished task end with, and `bthread_detach`.
 */
module TaskCalls {
  import opened Options
  import opened TaskPool
  import opened TaskGroup
  import opened TaskCache
  import SharedQueue
  import RoundRobin
  import W = Worker
  import WorkerRuns

  datatype Error = OK | EINVAL | EAGAIN | ENOMEM | ESRCH

  // A task in use: its slot's own, and not on the free list.
  ghost predicate InUse(group: TaskGroup, task: TaskMeta)
    requires group.Valid()
    reads group, group.pool, group.freeSlots, group.generations, group.metas, task
  {
    task.slotIndex < POOL_SIZE && group.pool[task.slotIndex] == task && task.slotIndex !in group.free
  }

  ghost function HeldBy(cache: TaskCache?): Option<seq<Slot>>
    reads cache
  {
    if cache == null then None else Some(cache.held)
  }

  // The group, the cache if any, and the slot obtained.
  function Obtained(g: Group, held: Option<seq<Slot>>): (Group, Option<seq<Slot>>, Option<Slot>) {
    if held.None? then
      var (g', slot) := Alloc(g);
      (g', None, slot)
    else
      var (g', cache, slot) := AcquireTaskMeta(g, held.value);
      if slot.Some? then (g', Some(cache), slot)
      else
        var (g'', other) := Alloc(g');
        (g'', Some(cache), other)
  }

  /** Obtaining fails exactly when nothing is cached and no slot is free. */
  lemma ObtainsIff(g: Group, held: Option<seq<Slot>>)
    ensures Obtained(g, held).2.None? <==> g.free == [] && (held.Some? ==> held.value == [])
  {
  }

  function SlotOf(task: TaskMeta?): Option<Slot>
    reads task
  {
    if task == null then None else Some(task.slotIndex)
  }

  // Where a worker's slot comes from: the last of the cache, which loses nothing else, and the free
  // list is left alone; with an empty cache the last of the first four free slots, or of all of
  // them if there are fewer, the others of which are cached.
  predicate FromCache(free: seq<Slot>, held: seq<Slot>, slot: Slot, free': seq<Slot>, held': seq<Slot>) {
    if held != [] then slot == held[|held| - 1] && held' == held[..|held| - 1] && free' == free
    else
      var k := if |free| < 4 then |free| else 4;
      k > 0 && slot == free[k - 1] && held' == free[..k - 1] && free' == free[k..]
  }

  /** A worker's slot comes from its cache, refilled when it is empty; without a worker it is the
      first free slot. */
  lemma ObtainedFrom(g: Group, held: Option<seq<Slot>>)
    ensures var (g', held', slot) := Obtained(g, held);
      && (held.Some? && slot.Some? ==>
        held'.Some? && FromCache(g.free, held.value, slot.value, g'.free, held'.value))
      && (held.Some? && held.value != [] ==> g' == g)
      && (held == Some([]) ==>
        var k := if |g.free| < 4 then |g.free| else 4;
        g'.created == g.created + (set x | x in g.free[..k]) && g'.deallocs == g.deallocs)
      && (held.None? && g.free != [] ==>
        g' == g.(free := g.free[1..], created := g.created + {g.free[0]}) && held' == None && slot == Some(g.free[0]))
  {
    if held == Some([]) && g.free != [] {
      var k := if |g.free| < 4 then |g.free| else 4;
      assert [] + g.free[..k] == g.free[..k] && g.free[..k][..k - 1] == g.free[..k - 1];
    }
  }

  /** Obtaining is a Take of the slot machine, so that what holds in its runs holds of this call. */
  lemma ObtainedIsTake(s: State, worker: Option<nat>)
    requires worker.Some? ==> worker.value < |s.caches|
    ensures var s', held := Apply(s, Take(worker)), if worker.Some? then Some(s.caches[worker.value]) else None;
      var (g, held', slot) := Obtained(s.group, held);
      && slot == TakenSlot(s, worker) && s'.group == g && |s'.caches| == |s.caches|
      && (worker.Some? ==> held' == Some(s'.caches[worker.value]))
      && s'.inUse == s.inUse + (if slot.Some? then {slot.value} else {})
  {
  }

  // The free slots are distinct, and no cached slot is free: `OnePlaceAlways` in `TaskPool`.
  predicate Apart(g: Group, held: Option<seq<Slot>>) {
    && (forall i, j | 0 <= i < j < |g.free| :: g.free[i] != g.free[j])
    && (held.Some? ==> forall slot | slot in held.value :: slot !in g.free)
  }

  lemma ObtainedIsNotFree(g: Group, held: Option<seq<Slot>>)
    requires Apart(g, held)
    ensures var (g', _, slot) := Obtained(g, held); slot.Some? ==> slot.value !in g'.free
  {
    FirstIsNotLater(g.free, if held.Some? && held.value == [] then Claimable(g, CACHE_SIZE) else 0);
  }

  lemma FirstIsNotLater(free: seq<Slot>, k: nat)
    requires k <= |free| && forall i, j | 0 <= i < j < |free| :: free[i] != free[j]
    ensures k > 0 ==> free[..k][k - 1] !in free[k..]
    ensures k == 0 ==> free[k..] == free
    ensures free != [] ==> free[0] !in free[1..]
  {
  }

  // From the worker's cache, and failing that from the group.
  method ObtainVia(group: TaskGroup, cache: TaskCache) returns (task: TaskMeta?)
    requires group.Valid() && cache.Valid(group)
    modifies group`freeHead, group`free, group`created, group`metas, group.pool, group.metas, cache, cache.tasks
    ensures group.Valid() && cache.Valid(group)
    ensures task != null ==> task.slotIndex < POOL_SIZE && group.pool[task.slotIndex] == task && task in group.metas
    ensures fresh(group.metas - old(group.metas))
    ensures (group.View(), Some(cache.held), SlotOf(task)) == Obtained(old(group.View()), Some(old(cache.held)))
    ensures group.WithStack() == old(group.WithStack())
  {
    task := cache.Acquire(group);
    if task == null {
      task := group.AllocTaskMeta();
    }
  }

  method ObtainApart(group: TaskGroup, cache: TaskCache) returns (task: TaskMeta?)
    requires group.Valid() && cache.Valid(group) && Apart(group.View(), Some(cache.held))
    modifies group`freeHead, group`free, group`created, group`metas, group.pool, group.metas, cache, cache.tasks
    ensures group.Valid() && cache.Valid(group) && fresh(group.metas - old(group.metas))
    ensures (group.View(), Some(cache.held), SlotOf(task)) == Obtained(old(group.View()), Some(old(cache.held)))
    ensures task != null ==>
      InUse(group, task) && task in group.metas && (task.hasStack <==> task.slotIndex in old(group.WithStack()))
  {
    ObtainedIsNotFree(group.View(), Some(cache.held));
    task := ObtainVia(group, cache);
  }

  // The fields of a new task, and its handle.
  method Initialize(group: TaskGroup, task: TaskMeta) returns (tid: nat)
    requires group.Valid() && task.slotIndex < POOL_SIZE && group.pool[task.slotIndex] == task && task.hasStack
    modifies task
    ensures group.Valid() && group.View() == old(group.View()) && task.slotIndex == old(task.slotIndex)
    ensures Started(task) && DecodeId(group.View(), tid) == Some(task.slotIndex)
  {
    task.state := READY;
    task.refCount := 2;
    task.joinWaiters := 0;
    task.hasJoinButex := false;
    tid := EncodeId(task.slotIndex, task.generation);
    DecodeEncoded(group.View(), task.slotIndex, task.generation);
  }

  predicate Started(task: TaskMeta)
    reads task
  {
    task.refCount == 2 && task.state == READY && task.joinWaiters == 0 && !task.hasJoinButex && task.hasStack
  }

  // A task that has no stack yet gets one, or goes back to the group when there is none to get.
  method GiveStack(group: TaskGroup, task: TaskMeta, stackAvailable: bool) returns (given: bool)
    requires group.Valid() && InUse(group, task)
    modifies group`freeHead, group`free, group`deallocs, group.freeSlots, group.generations, task
    ensures group.Valid() && task.slotIndex == old(task.slotIndex) && group.pool[task.slotIndex] == task
    ensures given <==> old(task.hasStack) || stackAvailable
    ensures if given then task.hasStack && group.View() == old(group.View())
      else group.View() == Dealloc(old(group.View()), old(task.slotIndex))
  {
    given := true;
    if !task.hasStack {
      if stackAvailable {
        task.hasStack := true;
      } else {
        group.DeallocTaskMeta(task);
        given := false;
      }
    }
  }

  // Submit: onto the deque of the worker that runs the caller, or into the global queue.
  method Submit(queue: W.Deque?, global: SharedQueue.SharedMPSCQueue, slot: Slot)
    requires global.Valid()
    modifies if queue == null then {} else {queue}
    modifies if queue == null then {global} else {}
    ensures global.Valid() && Submitted(old(Queues(queue, global)), Queues(queue, global), slot)
  {
    if queue != null {
      queue.Push(slot);
    } else {
      var _ := global.Push(slot);
    }
  }

  // The worker's deque if there is one, the global queue's shards, and its draws so far.
  ghost function Queues(queue: W.Deque?, global: SharedQueue.SharedMPSCQueue): (Option<seq<Slot>>, seq<seq<Slot>>, nat)
    reads queue, global
  {
    (if queue == null then None else Some(queue.tasks), global.shards, global.roundRobin)
  }

  predicate Submitted(before: (Option<seq<Slot>>, seq<seq<Slot>>, nat), after: (Option<seq<Slot>>, seq<seq<Slot>>, nat), slot: Slot) {
    if before.0.Some? then after == (Some(WorkerRuns.Pushed(before.0.value, slot)), before.1, before.2)
    else
      before.1 != [] && var shard := RoundRobin.Assigned(before.2, |before.1|);
      after == (None, if 0 <= shard < |before.1| then before.1[shard := before.1[shard] + [slot]] else before.1, before.2 + 1)
  }

  /** A Submit by a worker does to its deque what the step of the workers' machine does. */
  lemma SubmittedByWorker(s: WorkerRuns.State, w: nat, slot: Slot, shards: seq<seq<Slot>>, draws: nat)
    requires w < |s.workers| && WorkerRuns.MaySubmit(s.workers[w])
    ensures Submitted((Some(s.workers[w].queue), shards, draws),
      (Some(WorkerRuns.Apply(s, WorkerRuns.SubmitLocal(w, slot)).workers[w].queue), shards, draws), slot)
  {
  }

  /** And one from outside does to the global queue what a push of its machine does. */
  lemma SubmittedOutside(s: SharedQueue.State, c: nat, slot: Slot)
    requires SharedQueue.Shaped(s) && c < |s.stages| && s.stages[c].Idle? && RoundRobin.Usable(s.draws, |s.shards|)
    ensures var s' := SharedQueue.RunFrom(s, [SharedQueue.BeginPush(c, slot), SharedQueue.Step(c), SharedQueue.Step(c)]);
      Submitted((None, s.shards, s.draws), (None, s'.shards, s'.draws), slot)
  {
    SharedQueue.PushAlone(s, c, slot);
  }

  // What the call returns, by the slot that it obtains.
  function CreateError(slot: Option<Slot>, withStack: set<Slot>, stackAvailable: bool): Error {
    if slot.None? then EAGAIN
    else if slot.value !in withStack && !stackAvailable then ENOMEM
    else OK
  }

  // The group afterwards.
  function AfterError(g: Group, slot: Option<Slot>, error: Error): Group {
    if error == ENOMEM && slot.Some? then Dealloc(g, slot.value) else g
  }

  // The task's stack and fields.
  method Equip(group: TaskGroup, task: TaskMeta, stackAvailable: bool) returns (equipped: bool, tid: nat)
    requires group.Valid() && InUse(group, task)
    modifies group`freeHead, group`free, group`deallocs, group.freeSlots, group.generations, task
    ensures group.Valid() && task.slotIndex == old(task.slotIndex) < POOL_SIZE && group.pool[task.slotIndex] == task
    ensures equipped <==> old(task.hasStack) || stackAvailable
    ensures if equipped
      then group.View() == old(group.View()) && Started(task) && DecodeId(group.View(), tid) == Some(task.slotIndex)
      else group.View() == Dealloc(old(group.View()), task.slotIndex)
  {
    tid := 0;
    equipped := GiveStack(group, task, stackAvailable);
    if equipped {
      tid := Initialize(group, task);
    }
  }

  ghost predicate IsHandle(group: TaskGroup, task: TaskMeta, tid: nat)
    reads group, group.pool, task
  {
    && DecodeId(group.View(), tid) == Some(task.slotIndex)
    && task.slotIndex < group.pool.Length && group.pool[task.slotIndex] == task
  }

  // The same, for what was obtained.
  method EquipIfAny(group: TaskGroup, obtained: TaskMeta?, stackAvailable: bool, ghost withStack: set<Slot>)
    returns (error: Error, tid: nat, task: TaskMeta?)
    requires group.Valid()
    requires obtained != null ==> InUse(group, obtained) && (obtained.hasStack <==> obtained.slotIndex in withStack)
    modifies group`freeHead, group`free, group`deallocs, group.freeSlots, group.generations
    modifies if obtained == null then {} else {obtained}
    ensures group.Valid()
    ensures error == CreateError(old(SlotOf(obtained)), withStack, stackAvailable)
    ensures group.View() == AfterError(old(group.View()), old(SlotOf(obtained)), error)
    ensures error != OK ==> task == null
    ensures error == OK ==> task == obtained != null && SlotOf(task) == old(SlotOf(obtained)) && Started(task)
    ensures error == OK ==> IsHandle(group, task, tid)
  {
    if obtained == null {
      return EAGAIN, 0, null;
    }
    var equipped;
    equipped, tid := Equip(group, obtained, stackAvailable);
    error := if equipped then OK else ENOMEM;
    task := if equipped then obtained else null;
  }

  // The call up to its enqueueing by a thread that is no worker, and by a worker.
  method MakeOutside(group: TaskGroup, stackAvailable: bool) returns (error: Error, tid: nat, task: TaskMeta?)
    requires group.Valid() && Apart(group.View(), None)
    modifies group`freeHead, group`free, group`created, group`metas, group`deallocs
    modifies group.pool, group.metas, group.freeSlots, group.generations
    ensures group.Valid() && Made(group, task, tid, error)
    ensures var obtained := Obtained(old(group.View()), None);
      && error == CreateError(obtained.2, old(group.WithStack()), stackAvailable)
      && group.View() == AfterError(obtained.0, obtained.2, error) && (error == OK ==> SlotOf(task) == obtained.2)
  {
    ghost var withStack := group.WithStack();
    ObtainedIsNotFree(group.View(), None);
    var any := group.AllocTaskMeta();
    error, tid, task := EquipIfAny(group, any, stackAvailable, withStack);
  }

  method MakeByWorker(group: TaskGroup, cache: TaskCache, stackAvailable: bool) returns (error: Error, tid: nat, task: TaskMeta?)
    requires group.Valid() && cache.Valid(group) && Apart(group.View(), Some(cache.held))
    modifies group`freeHead, group`free, group`created, group`metas, group`deallocs
    modifies group.pool, group.metas, group.freeSlots, group.generations, cache, cache.tasks
    ensures group.Valid() && cache.Valid(group) && Made(group, task, tid, error)
    ensures var obtained := Obtained(old(group.View()), Some(old(cache.held)));
      && error == CreateError(obtained.2, old(group.WithStack()), stackAvailable)
      && group.View() == AfterError(obtained.0, obtained.2, error) && (error == OK ==> SlotOf(task) == obtained.2)
      && Some(cache.held) == obtained.1
  {
    ghost var withStack := group.WithStack();
    var any := ObtainApart(group, cache);
    error, tid, task := EquipIfAny(group, any, stackAvailable, withStack);
  }

  // A task that has been made starts with two references, and its handle decodes to it.
  ghost predicate Made(group: TaskGroup, task: TaskMeta?, tid: nat, error: Error)
    reads group, group.pool, task
  {
    if error == OK then task != null && Started(task) && IsHandle(group, task, tid) else task == null
  }

  /** A null handle or function is refused; the call fails with EAGAIN exactly when the worker has
      nothing cached and no slot is free, and with ENOMEM exactly when the task obtained has no
      stack and none can be allocated, and then the task is back with the group. Otherwise it
      starts with two references and its handle decodes to it. Its slot is the last one cached by the
      worker; with nothing cached the last of up to four free slots, the others of which are cached;
      and without a worker the first free one. What is left of the call is `Submit`. */
  method Create(group: TaskGroup, cache: TaskCache?, handleOrFnNull: bool, stackAvailable: bool)
    returns (error: Error, tid: nat, task: TaskMeta?)
    requires group.Valid() && (cache != null ==> cache.Valid(group)) && Apart(group.View(), HeldBy(cache))
    modifies group`freeHead, group`free, group`created, group`metas, group`deallocs
    modifies group.pool, group.metas, group.freeSlots, group.generations
    modifies if cache == null then {} else {cache, cache.tasks}
    ensures group.Valid() && (cache != null ==> cache.Valid(group)) && Made(group, task, tid, error)
    ensures handleOrFnNull ==> error == EINVAL && group.View() == old(group.View()) && HeldBy(cache) == old(HeldBy(cache))
    ensures !handleOrFnNull ==>
      var obtained := Obtained(old(group.View()), old(HeldBy(cache)));
      && (error == OK || error == EAGAIN || error == ENOMEM) && HeldBy(cache) == obtained.1
      && (error == ENOMEM <==>
        obtained.2.Some? && obtained.2.value !in old(group.WithStack()) && !stackAvailable)
      && (error == OK ==> SlotOf(task) == obtained.2)
      && group.View() == if error == ENOMEM then Dealloc(obtained.0, obtained.2.value) else obtained.0
    ensures error == EAGAIN <==>
      !handleOrFnNull && old(group.free) == [] && (cache != null ==> old(cache.held) == [])
    ensures error == OK && cache != null ==>
      FromCache(old(group.free), old(cache.held), task.slotIndex, group.free, cache.held)
    ensures error == OK && cache == null ==>
      old(group.free) != [] && task.slotIndex == old(group.free)[0] && group.free == old(group.free)[1..]
  {
    if handleOrFnNull {
      return EINVAL, 0, null;
    }
    ObtainsIff(group.View(), HeldBy(cache));
    ObtainedFrom(group.View(), HeldBy(cache));
    if cache == null {
      error, tid, task := MakeOutside(group, stackAvailable);
    } else {
      error, tid, task := MakeByWorker(group, cache, stackAvailable);
    }
  }

  /** How a join and a finished task drop their reference: the last one out gives the task to
      the worker's cache, or to the group when there is no worker or no room. */
  method ReleaseReference(group: TaskGroup, cache: TaskCache?, task: TaskMeta)
    requires group.Valid() && (cache != null ==> cache.Valid(group)) && InUse(group, task)
    modifies group`freeHead, group`free, group`deallocs, group.freeSlots, group.generations, task
    modifies if cache == null then {} else {cache, cache.tasks}
    ensures group.Valid() && (cache != null ==> cache.Valid(group))
    ensures old(task.refCount) != 1 ==>
      group.View() == old(group.View()) && (cache != null ==> cache.held == old(cache.held))
      && task.refCount == old(task.refCount) - 1
    ensures old(task.refCount) == 1 && cache == null ==>
      group.View() == Dealloc(old(group.View()), old(task.slotIndex))
    ensures old(task.refCount) == 1 && cache != null ==>
      (group.View(), cache.held) == ReleaseTaskMeta(old(group.View()), old(cache.held), old(task.slotIndex))
  {
    task.refCount := task.refCount - 1;
    if task.refCount == 0 {
      if cache != null {
        cache.Release(group, task);
      } else {
        group.DeallocTaskMeta(task);
      }
    }
  }

  /** A stale handle is refused. Otherwise the creator's reference is dropped, and the last one
      out gives the task straight back to the group. */
  method Detach(group: TaskGroup, tid: nat) returns (error: Error)
    requires group.Valid() && tid < 0x1_0000_0000 * 0x1_0000_0000
    requires match DecodeId(group.View(), tid) case None => true case Some(slot) => slot !in group.free
    modifies group`freeHead, group`free, group`deallocs, group.freeSlots, group.generations, group.metas
    ensures group.Valid()
    ensures match DecodeId(old(group.View()), tid)
      case None => error == ESRCH && group.View() == old(group.View())
      case Some(slot) =>
        && error == OK && slot < POOL_SIZE && old(group.pool[slot]) != null
        && (old(group.pool[slot].refCount) == 1 ==> group.View() == Dealloc(old(group.View()), slot))
        && (old(group.pool[slot].refCount) != 1 ==>
          && group.View() == old(group.View()) && group.pool[slot] != null
          && group.pool[slot].refCount == old(group.pool[slot].refCount) - 1)
  {
    var task := group.Decode(tid);
    if task == null {
      return ESRCH;
    }
    ReleaseReference(group, null, task);
    return OK;
  }
}
