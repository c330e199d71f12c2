/**
 The task group and a worker's task cache, as objects: the free list threaded through an
 array of slot indices, the generations, the TaskMeta objects that are created once and
 reused, and each operation tied to its function in `TaskPool`.
 */
module TaskGroup {
  import opened Options
  import opened Packing
  import opened TaskPool

  const POOL_SIZE := 16384

  datatype TaskState = READY | RUNNING | SUSPENDED | FINISHED

  class TaskMeta {
    var slotIndex: nat
    var generation: nat
    var state: TaskState
    var refCount: int
    var joinWaiters: int
    var hasJoinButex: bool
    var hasStack: bool

    constructor ()
      ensures state == READY && refCount == 0 && joinWaiters == 0 && !hasJoinButex && !hasStack
    {
      slotIndex, generation, state := 0, 0, READY;
      refCount, joinWaiters, hasJoinButex, hasStack := 0, 0, false, false;
    }
  }

  // The free list from its k-th slot on starts here.
  function Link(free: seq<Slot>, k: nat): int {
    if k < |free| then free[k] else -1
  }

  // The arrays of a group with every slot free and in its first generation, and what they hold.
  method AllFree(size: nat) returns (links: array<int>, gens: array<int>, ghost free: seq<Slot>, ghost deallocs: seq<nat>)
    requires size > 0
    ensures fresh(links) && fresh(gens) && links != gens && links.Length == gens.Length == size
    ensures Link(free, 0) == 0 && forall k | 0 <= k < |free| :: free[k] < size && links[free[k]] == Link(free, k + 1)
    ensures |deallocs| == size && forall i | 0 <= i < size :: gens[i] == Wrap32(1 + deallocs[i])
    ensures Group(free, deallocs, {}) == StartGroup(size)
  {
    links, gens := new int[size], new int[size];
    for i := 0 to size
      invariant forall j | 0 <= j < i :: links[j] == j + 1 && gens[j] == 1
    {
      links[i] := i + 1;
      gens[i] := 1;
    }
    links[size - 1] := -1;
    free, deallocs := UpTo(size), seq(size, _ => 0);
    assert Wrap32(1) == 1;
  }

  method NoTasks(size: nat) returns (pool: array<TaskMeta?>)
    ensures fresh(pool) && pool.Length == size && forall i | 0 <= i < size :: pool[i] == null
  {
    pool := new TaskMeta?[size](_ => null);
  }

  method CopyOut(from: array<int>, to: array<int>, n: nat)
    requires n <= from.Length && n <= to.Length && from != to
    modifies to
    ensures to[..n] == from[..n]
  {
    for i := 0 to n
      invariant to[..i] == from[..i]
    {
      to[i] := from[i];
    }
  }

  class TaskGroup {
    const pool: array<TaskMeta?>
    const freeSlots: array<int>
    const generations: array<int>
    var freeHead: int
    ghost var free: seq<Slot>
    ghost var deallocs: seq<nat>
    ghost var created: set<Slot>
    ghost var metas: set<TaskMeta>

    ghost function View(): Group
      reads this
    {
      Group(free, deallocs, created)
    }

    // The chain of free slots, as the array holds it.
    ghost predicate ListInv()
      reads `freeHead, `free, freeSlots
    {
      && freeSlots.Length == POOL_SIZE && freeHead == Link(free, 0)
      && forall k | 0 <= k < |free| :: free[k] < POOL_SIZE && freeSlots[free[k]] == Link(free, k + 1)
    }

    ghost predicate GenerationsInv()
      reads `deallocs, generations
    {
      && generations.Length == |deallocs| == POOL_SIZE
      && forall i | 0 <= i < POOL_SIZE :: generations[i] == Wrap32(1 + deallocs[i])
    }

    // A task always agrees with its slot on the generation.
    ghost predicate MetasInv()
      reads `created, `metas, pool, generations, metas
    {
      && pool.Length == generations.Length == POOL_SIZE
      && (forall i: nat | i < POOL_SIZE :: pool[i] != null <==> i in created)
      && forall i: nat | i < POOL_SIZE && pool[i] != null ::
        pool[i] in metas && pool[i].slotIndex == i && pool[i].generation == generations[i]
    }

    ghost predicate Valid()
      reads this, pool, freeSlots, generations, metas
    {
      freeSlots != generations && ListInv() && GenerationsInv() && MetasInv()
    }

    // The slots whose tasks have a stack.
    ghost function WithStack(): set<Slot>
      reads `metas, pool, metas
    {
      set i: nat | i < pool.Length && pool[i] != null && pool[i] in metas && pool[i].hasStack
    }

    constructor ()
      ensures Valid() && View() == StartGroup(POOL_SIZE) && WithStack() == {}
      ensures fresh(pool) && fresh(freeSlots) && fresh(generations) && metas == {}
    {
      var links, gens;
      ghost var all, counts;
      links, gens, all, counts := AllFree(POOL_SIZE);
      var tasks := NoTasks(POOL_SIZE);
      pool, freeSlots, generations := tasks, links, gens;
      freeHead := 0;
      free, deallocs, created, metas := all, counts, {}, {};
    }

    // A slot's new task.
    method Make(slot: Slot) returns (meta: TaskMeta)
      requires Valid() && slot < POOL_SIZE && pool[slot] == null
      modifies `created, `metas, pool
      ensures Valid() && created == old(created) + {slot} && metas == old(metas) + {meta}
      ensures fresh(meta) && pool[slot] == meta && WithStack() == old(WithStack())
      ensures forall i | 0 <= i < POOL_SIZE && i != slot :: pool[i] == old(pool[i])
    {
      meta := new TaskMeta();
      meta.slotIndex := slot;
      meta.generation := generations[slot];
      pool[slot] := meta;
      metas := metas + {meta};
      created := created + {slot};
    }

    // A slot's task gets its slot index and generation, which it has.
    method Refresh(slot: Slot, meta: TaskMeta)
      requires Valid() && slot < POOL_SIZE && pool[slot] == meta
      modifies meta
      ensures Valid() && meta.generation == Generation(View(), slot) && WithStack() == old(WithStack())
    {
      meta.slotIndex := slot;
      meta.generation := generations[slot];
    }

    // The task of a slot, made on first use, with its slot index and generation set.
    method Prepare(slot: Slot) returns (meta: TaskMeta)
      requires Valid() && slot < POOL_SIZE
      modifies `created, `metas, pool, metas
      ensures Valid() && created == old(created) + {slot}
      ensures old(metas) <= metas && fresh(metas - old(metas))
      ensures meta == pool[slot] && meta.generation == Generation(View(), slot) && WithStack() == old(WithStack())
      ensures forall i | 0 <= i < POOL_SIZE && old(pool[i]) != null :: pool[i] == old(pool[i])
    {
      var m := pool[slot];
      if m == null {
        meta := Make(slot);
      } else {
        meta := m;
        Refresh(slot, meta);
      }
    }

    /** The first free slot's task, or null when there is none. */
    method AllocTaskMeta() returns (meta: TaskMeta?)
      requires Valid()
      modifies `freeHead, `free, `created, `metas, pool, metas
      ensures Valid()
      ensures var (g, slot) := Alloc(old(View()));
        && View() == g
        && (slot.None? <==> meta == null)
        && (meta != null ==> slot.value < POOL_SIZE && meta == pool[slot.value] && meta.generation == Generation(View(), slot.value))
      ensures WithStack() == old(WithStack())
      ensures old(metas) <= metas && fresh(metas - old(metas))
      ensures forall i | 0 <= i < POOL_SIZE && old(pool[i]) != null :: pool[i] == old(pool[i])
    {
      var slot := freeHead;
      if slot < 0 {
        return null;
      }
      var next := freeSlots[slot];
      freeHead := next;
      free := free[1..];
      meta := Prepare(slot);
    }

    // A walk along the list.
    method Collect(count: nat) returns (claim: array<int>, found: nat, current: int)
      requires ListInv()
      ensures fresh(claim) && claim.Length == 16
      ensures found == Min(Min(count, 16), |free|) && claim[..found] == free[..found] && current == Link(free, found)
    {
      claim := new int[16];
      current, found := freeHead, 0;
      while current >= 0 && found < count && found < 16
        invariant found <= 16 && found <= count && found <= |free| && ListInv()
        invariant current == Link(free, found) && claim[..found] == free[..found]
        decreases 16 - found
      {
        claim[found] := current;
        found := found + 1;
        current := freeSlots[current];
      }
    }

    /** The first slots of the list, at most sixteen, written to the caller's buffer. */
    method AllocMultipleSlots(slots: array?<int>, count: int) returns (taken: int)
      requires Valid() && (slots != null ==> count <= slots.Length && slots != freeSlots && slots != generations)
      modifies `freeHead, `free, if slots == null then {} else {slots}
      ensures Valid()
      ensures var (g, claimed) := AllocMultiple(old(View()), if slots == null then 0 else count);
        View() == g && taken == |claimed| && (slots != null ==> slots[..taken] == claimed)
    {
      if slots == null || count <= 0 {
        return 0;
      }
      var head := freeHead;
      if head < 0 {
        return 0;
      }
      var claim, found, current := Collect(count);
      freeHead := current;
      free := free[found..];
      CopyOut(claim, slots, found);
      taken := found;
    }

    /** Null outside the pool; otherwise the slot's task. */
    method GetOrCreateTaskMeta(slot: int) returns (meta: TaskMeta?)
      requires Valid()
      modifies `created, `metas, pool, metas
      ensures Valid()
      ensures meta == null <==> !(0 <= slot < POOL_SIZE)
      ensures if 0 <= slot < POOL_SIZE
        then View() == old(View()).(created := old(created) + {slot}) && meta == pool[slot] && meta.generation == Generation(View(), slot)
        else View() == old(View())
      ensures WithStack() == old(WithStack())
      ensures old(metas) <= metas && fresh(metas - old(metas))
      ensures forall i | 0 <= i < POOL_SIZE && old(pool[i]) != null :: pool[i] == old(pool[i])
    {
      if slot < 0 || slot >= POOL_SIZE {
        return null;
      }
      meta := Prepare(slot);
    }

    // The push at the head of the list.
    method PushFree(slot: Slot)
      requires ListInv() && slot < POOL_SIZE && slot !in free
      modifies `freeHead, `free, freeSlots
      ensures ListInv() && free == [slot] + old(free)
    {
      var oldHead := freeHead;
      freeSlots[slot] := oldHead;
      freeHead := slot;
      free := [slot] + free;
    }

    // The reset of a task, with its slot's next generation.
    method Recycle(task: TaskMeta)
      requires GenerationsInv() && MetasInv() && task.slotIndex < POOL_SIZE && pool[task.slotIndex] == task
      modifies `deallocs, generations, task
      ensures GenerationsInv() && MetasInv()
      ensures deallocs == old(deallocs)[task.slotIndex := old(deallocs)[task.slotIndex] + 1]
      ensures task.slotIndex == old(task.slotIndex) && task.hasStack == old(task.hasStack)
      ensures task.generation == (old(task.generation) + 1) % 0x1_0000_0000 == generations[task.slotIndex]
      ensures task.state == READY && task.refCount == 0 && task.joinWaiters == 0 && !task.hasJoinButex
    {
      var slot := task.slotIndex;
      task.hasJoinButex := false;
      var newGen := (generations[slot] + 1) % 0x1_0000_0000;
      generations[slot] := newGen;
      task.generation := newGen;
      WrapNext(deallocs[slot]);
      deallocs := deallocs[slot := deallocs[slot] + 1];
      task.state := READY;
      task.refCount := 0;
      task.joinWaiters := 0;
    }

    /** A task in use goes back to the front of the free list with a new generation, reset but
        for its stack. */
    method DeallocTaskMeta(task: TaskMeta?)
      requires Valid()
      requires task != null ==> task.slotIndex < POOL_SIZE && pool[task.slotIndex] == task && task.slotIndex !in free
      modifies `freeHead, `free, `deallocs, freeSlots, generations, task
      ensures Valid()
      ensures View() == if task == null then old(View()) else Dealloc(old(View()), old(task.slotIndex))
      ensures task != null ==>
        && task.slotIndex == old(task.slotIndex) && task.hasStack == old(task.hasStack)
        && task.state == READY && task.refCount == 0 && task.joinWaiters == 0 && !task.hasJoinButex
        && free == [task.slotIndex] + old(free)
        && task.generation == (old(task.generation) + 1) % 0x1_0000_0000 == generations[task.slotIndex]
    {
      if task == null {
        return;
      }
      Recycle(task);
      PushFree(task.slotIndex);
    }

    /** The task that a handle stands for, or null when the handle is stale or was never issued. */
    method Decode(tid: nat) returns (meta: TaskMeta?)
      requires Valid() && tid < 0x1_0000_0000 * 0x1_0000_0000
      ensures meta == null <==> DecodeId(View(), tid) == None
      ensures meta != null ==> DecodeId(View(), tid) == Some(meta.slotIndex) && meta.slotIndex < POOL_SIZE && pool[meta.slotIndex] == meta
    {
      var w := Unpack(tid);
      if w.low >= POOL_SIZE {
        return null;
      }
      meta := pool[w.low];
      if meta != null && meta.generation == w.high {
        return;
      }
      return null;
    }
  }

  lemma WrapNext(n: nat)
    ensures (Wrap32(1 + n) + 1) % 0x1_0000_0000 == Wrap32(1 + (n + 1))
  {
  }
}
