/**
 A worker's cache of tasks over the task group. `held` is the slots of the cached tasks, and
 each operation does to it and to the group what its function in `TaskPool` says.
 */
module TaskCache {
  import opened TaskPool
  import opened TaskGroup

  class TaskCache {
    const tasks: array<TaskMeta?>
    var count: nat
    ghost var held: seq<Slot>

    // Each cached task is its slot's own.
    ghost predicate Valid(group: TaskGroup)
      reads this, tasks, `held, group.pool
    {
      && tasks.Length == CACHE_SIZE && count == |held| <= CACHE_SIZE && group.pool.Length == POOL_SIZE
      && tasks != group.pool
      && forall i | 0 <= i < |held| ::
        held[i] < POOL_SIZE && tasks[i] != null && tasks[i] == group.pool[held[i]]
    }

    constructor (group: TaskGroup)
      requires group.Valid()
      ensures Valid(group) && fresh(tasks) && held == []
    {
      tasks := new TaskMeta?[CACHE_SIZE](_ => null);
      count, held := 0, [];
    }

    // One claimed slot's task is put into the cache.
    method Put(group: TaskGroup, slot: int)
      requires group.Valid() && Valid(group) && |held| < CACHE_SIZE && 0 <= slot < POOL_SIZE
      modifies this, tasks, group`created, group`metas, group.pool, group.metas
      ensures group.Valid() && Valid(group) && held == old(held) + [slot]
      ensures group.created == old(group.created) + {slot} && group.WithStack() == old(group.WithStack())
      ensures old(group.metas) <= group.metas && fresh(group.metas - old(group.metas))
      ensures forall i | 0 <= i < POOL_SIZE && old(group.pool[i]) != null :: group.pool[i] == old(group.pool[i])
    {
      var meta := group.GetOrCreateTaskMeta(slot);
      if meta != null {
        tasks[count] := meta;
        count := count + 1;
        held := held + [slot];
      }
    }

    // The claimed slots' tasks are put into the empty cache one after the other.
    method FillFrom(group: TaskGroup, slots: array<int>, n: nat)
      requires group.Valid() && Valid(group) && held == [] && n <= CACHE_SIZE <= slots.Length
      requires forall i | 0 <= i < n :: 0 <= slots[i] < POOL_SIZE
      requires slots != group.freeSlots && slots != group.generations
      modifies this, tasks, group`created, group`metas, group.pool, group.metas
      ensures group.Valid() && Valid(group) && held == slots[..n]
      ensures group.created == old(group.created) + set x | x in slots[..n]
      ensures group.WithStack() == old(group.WithStack())
      ensures forall i | 0 <= i < POOL_SIZE && old(group.pool[i]) != null :: group.pool[i] == old(group.pool[i])
      ensures old(group.metas) <= group.metas && fresh(group.metas - old(group.metas))
    {
      var i := 0;
      while i < n
        invariant i <= n && group.Valid() && Valid(group) && held == slots[..i]
        invariant old(group.metas) <= group.metas && fresh(group.metas - old(group.metas))
        invariant group.created == old(group.created) + set x | x in slots[..i]
        invariant group.WithStack() == old(group.WithStack())
        invariant forall j | 0 <= j < POOL_SIZE && old(group.pool[j]) != null :: group.pool[j] == old(group.pool[j])
      {
        Put(group, slots[i]);
        assert slots[..i + 1] == slots[..i] + [slots[i]];
        i := i + 1;
      }
    }

    method ClaimSlots(group: TaskGroup, slots: array<int>) returns (n: nat)
      requires group.Valid() && slots.Length == CACHE_SIZE && slots != group.freeSlots && slots != group.generations
      modifies group`freeHead, group`free, slots
      ensures group.Valid() && n <= CACHE_SIZE && group.WithStack() == old(group.WithStack())
      ensures var (g, claimed) := AllocMultiple(old(group.View()), CACHE_SIZE);
        group.View() == g && slots[..n] == claimed
      ensures forall i | 0 <= i < n :: 0 <= slots[i] < POOL_SIZE
    {
      ghost var free := group.free;
      n := group.AllocMultipleSlots(slots, CACHE_SIZE);
      assert forall i | 0 <= i < n :: slots[i] == slots[..n][i] == free[i];
    }

    method RefillTaskCache(group: TaskGroup)
      requires group.Valid() && Valid(group) && held == []
      modifies this, tasks, group`freeHead, group`free, group`created, group`metas, group.pool, group.metas
      ensures group.Valid() && Valid(group)
      ensures var (g, cache) := Refill(old(group.View()), []); group.View() == g && held == cache
      ensures group.WithStack() == old(group.WithStack())
      ensures forall i | 0 <= i < POOL_SIZE && old(group.pool[i]) != null :: group.pool[i] == old(group.pool[i])
      ensures old(group.metas) <= group.metas && fresh(group.metas - old(group.metas))
    {
      var slots := new int[CACHE_SIZE];
      var n := ClaimSlots(group, slots);
      FillFrom(group, slots, n);
    }

    /** The last cached task; with an empty cache, one of up to four fresh ones; null when the
        group has none left either. */
    method Acquire(group: TaskGroup) returns (meta: TaskMeta?)
      requires group.Valid() && Valid(group)
      modifies this, tasks, group`freeHead, group`free, group`created, group`metas, group.pool, group.metas
      ensures group.Valid() && Valid(group)
      ensures var (g, cache, slot) := AcquireTaskMeta(old(group.View()), old(held));
        && group.View() == g && held == cache && (meta == null <==> slot.None?)
        && (meta != null ==> slot.value < POOL_SIZE && meta == group.pool[slot.value])
      ensures group.WithStack() == old(group.WithStack())
      ensures old(group.metas) <= group.metas && fresh(group.metas - old(group.metas))
    {
      if count == 0 {
        RefillTaskCache(group);
      }
      if count > 0 {
        meta := TakeLast(group);
        return;
      }
      return null;
    }

    method TakeLast(group: TaskGroup) returns (meta: TaskMeta)
      requires Valid(group) && held != []
      modifies this
      ensures Valid(group) && held == old(held)[..|old(held)| - 1]
      ensures old(held)[|old(held)| - 1] < POOL_SIZE && meta == group.pool[old(held)[|old(held)| - 1]]
    {
      count := count - 1;
      meta := tasks[count];
      held := held[..count];
    }

    /** Into the cache while there is room, keeping its generation; otherwise back to the group. */
    method Release(group: TaskGroup, meta: TaskMeta?)
      requires group.Valid() && Valid(group)
      requires meta != null ==>
        meta.slotIndex < POOL_SIZE && group.pool[meta.slotIndex] == meta && meta.slotIndex !in group.free
      modifies this, tasks, group`freeHead, group`free, group`deallocs, group.freeSlots, group.generations, meta
      ensures group.Valid() && Valid(group)
      ensures if meta == null then group.View() == old(group.View()) && held == old(held)
        else (group.View(), held) == ReleaseTaskMeta(old(group.View()), old(held), old(meta.slotIndex))
      ensures meta != null && |old(held)| < 4 ==> held == old(held) + [meta.slotIndex] && group.free == old(group.free)
      ensures meta != null && |old(held)| >= 4 ==> held == old(held) && group.free == [meta.slotIndex] + old(group.free)
    {
      if meta == null {
        return;
      }
      if count < CACHE_SIZE {
        tasks[count] := meta;
        count := count + 1;
        held := held + [meta.slotIndex];
        return;
      }
      group.DeallocTaskMeta(meta);
    }

    // The i-th cached task goes back to the group.
    method DrainOne(group: TaskGroup, i: nat, ghost slot: Slot)
      requires group.Valid() && i < tasks.Length && tasks != group.pool && slot < POOL_SIZE && slot !in group.free
      requires tasks[i] != null && tasks[i] == group.pool[slot]
      modifies tasks, group`freeHead, group`free, group`deallocs, group.freeSlots, group.generations, group.metas
      ensures group.Valid() && group.View() == Dealloc(old(group.View()), slot)
      ensures tasks[i] == null && forall j | 0 <= j < tasks.Length && j != i :: tasks[j] == old(tasks[j])
    {
      var task := tasks[i];
      group.DeallocTaskMeta(task);
      tasks[i] := null;
    }

    // The cached tasks from the i-th on, none of which is free.
    ghost predicate Left(group: TaskGroup, i: nat)
      reads tasks, `held, group`free, group.pool
    {
      && tasks != group.pool && |held| <= tasks.Length && group.pool.Length == POOL_SIZE
      && forall j | i <= j < |held| ::
        held[j] < POOL_SIZE && tasks[j] != null && tasks[j] == group.pool[held[j]] && held[j] !in group.free
    }

    method DrainRest(group: TaskGroup, i: nat)
      requires group.Valid() && Left(group, i) && i < |held|
      requires forall j | i < j < |held| :: held[i] != held[j]
      modifies tasks, group`freeHead, group`free, group`deallocs, group.freeSlots, group.generations, group.metas
      ensures group.Valid() && Left(group, i + 1)
      ensures group.View() == Dealloc(old(group.View()), held[i])
    {
      if tasks[i] != null {
        DrainOne(group, i, held[i]);
      }
    }

    /** Every cached task goes back to the group, first cached first. */
    method Drain(group: TaskGroup)
      requires group.Valid() && Valid(group)
      requires forall i | 0 <= i < |held| :: held[i] !in group.free
      requires forall i, j | 0 <= i < j < |held| :: held[i] != held[j]
      modifies this, tasks, group`freeHead, group`free, group`deallocs, group.freeSlots, group.generations, group.metas
      ensures group.Valid() && Valid(group) && held == []
      ensures group.View() == DeallocAll(old(group.View()), old(held))
    {
      var i := 0;
      assert held[i..] == held;
      while i < count
        invariant i <= count == |held| && held == old(held) && group.Valid() && Left(group, i)
        invariant DeallocAll(group.View(), held[i..]) == DeallocAll(old(group.View()), held)
      {
        DrainRest(group, i);
        assert held[i..][1..] == held[i + 1..];
        i := i + 1;
      }
      count := 0;
      held := [];
    }
  }
}
