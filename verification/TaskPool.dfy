/**
 The pool of task slots: a free list shared by all, a cache of a few slots per worker, and a
 generation per slot that tells a stale handle from a live one. The functions say what each
 operation does, the compare-and-swap loops on the list head being atomic; the lemmas are
 about every run of them. `deallocs` counts how often each slot has been returned to the
 free list; the 32-bit generation is one more than that count, wrapped.
 */
module TaskPool {
  import opened Options
  import opened Packing
  import opened Sums

  type Slot = nat

  const CACHE_SIZE := 4   // TASK_CACHE_SIZE
  const CLAIM_LIMIT := 16 // slots_to_claim

  datatype Group = Group(free: seq<Slot>, deallocs: seq<nat>, created: set<Slot>)

  datatype State = State(group: Group, caches: seq<seq<Slot>>, inUse: set<Slot>)

  // ---- The task group ----

  function Generation(g: Group, slot: Slot): nat
    requires slot < |g.deallocs|
  {
    Wrap32(1 + g.deallocs[slot])
  }

  function EncodeId(slot: Slot, generation: nat): nat {
    Pack(Word(generation, slot))
  }

  // The slot whose task a handle stands for.
  function DecodeId(g: Group, tid: nat): Option<Slot> {
    Lookup(g, Unpack(tid))
  }

  function Lookup(g: Group, w: Word): Option<Slot> {
    if w.low < |g.deallocs| && w.low in g.created && Generation(g, w.low) == w.high then Some(w.low) else None
  }

  function Min(a: nat, b: nat): nat { if a < b then a else b }

  function Claimable(g: Group, count: int): nat {
    if count <= 0 then 0 else Min(Min(count, CLAIM_LIMIT), |g.free|)
  }

  function AllocMultiple(g: Group, count: int): (Group, seq<Slot>) {
    var k := Claimable(g, count);
    (g.(free := g.free[k..]), g.free[..k])
  }

  function Alloc(g: Group): (Group, Option<Slot>) {
    if g.free == [] then (g, None)
    else (g.(free := g.free[1..], created := g.created + {g.free[0]}), Some(g.free[0]))
  }

  function CreateAll(g: Group, slots: seq<Slot>): Group {
    g.(created := g.created + set s | s in slots)
  }

  function Dealloc(g: Group, slot: Slot): (r: Group)
    ensures |r.deallocs| == |g.deallocs| && r.created == g.created && r.free == [slot] + g.free
  {
    g.(free := [slot] + g.free,
       deallocs := if slot < |g.deallocs| then g.deallocs[slot := g.deallocs[slot] + 1] else g.deallocs)
  }

  // ---- A worker's cache ----

  function Refill(g: Group, cache: seq<Slot>): (Group, seq<Slot>) {
    var (g', slots) := AllocMultiple(g, CACHE_SIZE);
    (CreateAll(g', slots), cache + slots)
  }

  function AcquireTaskMeta(g: Group, cache: seq<Slot>): (Group, seq<Slot>, Option<Slot>) {
    var (g', cache') := if cache != [] then (g, cache) else Refill(g, cache);
    if cache' == [] then (g', cache', None)
    else (g', cache'[..|cache'| - 1], Some(cache'[|cache'| - 1]))
  }

  function ReleaseTaskMeta(g: Group, cache: seq<Slot>, slot: Slot): (Group, seq<Slot>) {
    if |cache| < CACHE_SIZE then (g, cache + [slot]) else (Dealloc(g, slot), cache)
  }

  function DeallocAll(g: Group, slots: seq<Slot>): Group
    decreases |slots|
  {
    if slots == [] then g else DeallocAll(Dealloc(g, slots[0]), slots[1..])
  }

  /** A worker that has room caches the slot and gives it out next; one with four cached slots gives
      it to the group. */
  lemma ReleaseThenAcquire(g: Group, cache: seq<Slot>, slot: Slot)
    ensures var (g1, cache1) := ReleaseTaskMeta(g, cache, slot);
      if |cache| < 4 then g1 == g && AcquireTaskMeta(g1, cache1) == (g, cache, Some(slot))
      else g1 == Dealloc(g, slot) && cache1 == cache
  {
  }

  // ---- Runs ----

  datatype Action =
    | Take(worker: Option<nat>)                 // bthread_create
    | GiveBack(worker: Option<nat>, slot: Slot) // the last reference to a task is dropped
    | Drain(w: nat)                             // a worker ends

  function TakeFromGroup(s: State): State {
    var (g, slot) := Alloc(s.group);
    if slot.None? then s else s.(group := g, inUse := s.inUse + {slot.value})
  }

  function TakeCached(s: State, w: nat): State
    requires w < |s.caches|
  {
    var (g, cache, slot) := AcquireTaskMeta(s.group, s.caches[w]);
    if slot.None? then TakeFromGroup(s.(group := g, caches := s.caches[w := cache]))
    else State(g, s.caches[w := cache], s.inUse + {slot.value})
  }

  // The slot that a Take puts to use.
  function TakenSlot(s: State, worker: Option<nat>): Option<Slot> {
    if worker.Some? && worker.value < |s.caches| then
      var (g, cache, slot) := AcquireTaskMeta(s.group, s.caches[worker.value]);
      if slot.Some? then slot else Alloc(g).1
    else Alloc(s.group).1
  }

  function GiveBackTo(s: State, worker: Option<nat>, slot: Slot): State {
    if slot !in s.inUse then s
    else if worker.Some? && worker.value < |s.caches| then
      var (g, cache) := ReleaseTaskMeta(s.group, s.caches[worker.value], slot);
      State(g, s.caches[worker.value := cache], s.inUse - {slot})
    else State(Dealloc(s.group, slot), s.caches, s.inUse - {slot})
  }

  function Apply(s: State, a: Action): State {
    match a
    case Take(worker) =>
      if worker.Some? && worker.value < |s.caches| then TakeCached(s, worker.value) else TakeFromGroup(s)
    case GiveBack(worker, slot) => GiveBackTo(s, worker, slot)
    case Drain(w) =>
      if w < |s.caches| then State(DeallocAll(s.group, s.caches[w]), s.caches[w := []], s.inUse) else s
  }

  function RunFrom(s: State, actions: seq<Action>): State
    decreases |actions|
  {
    if actions == [] then s else RunFrom(Apply(s, actions[0]), actions[1..])
  }

  function UpTo(n: nat): seq<Slot> {
    seq(n, i => i)
  }

  function NoCaches(n: nat): seq<seq<Slot>> {
    seq(n, _ => [])
  }

  function StartGroup(size: nat): Group {
    Group(UpTo(size), seq(size, _ => 0), {})
  }

  function Start(size: nat, workers: nat): State {
    State(StartGroup(size), NoCaches(workers), {})
  }

  // ---- Every slot is in exactly one place ----

  function CachedCopies(caches: seq<seq<Slot>>, x: Slot): nat {
    if caches == [] then 0 else Copies(caches[0], x) + CachedCopies(caches[1..], x)
  }

  // How many times the slot stands anywhere.
  function Places(free: seq<Slot>, caches: seq<seq<Slot>>, inUse: set<Slot>, x: Slot): nat {
    Copies(free, x) + CachedCopies(caches, x) + if x in inUse then 1 else 0
  }

  ghost predicate OnePlace(free: seq<Slot>, caches: seq<seq<Slot>>, inUse: set<Slot>, size: nat) {
    forall x: Slot :: Places(free, caches, inUse, x) == if x < size then 1 else 0
  }

  // The slots in caches and in use have their tasks.
  predicate HaveTasks(caches: seq<seq<Slot>>, inUse: set<Slot>, created: set<Slot>) {
    && inUse <= created
    && forall w | 0 <= w < |caches| :: CacheInv(caches[w], created)
  }

  predicate CacheInv(cache: seq<Slot>, created: set<Slot>) {
    |cache| <= CACHE_SIZE && forall x | x in cache :: x in created
  }

  ghost predicate Inv(s: State) {
    && OnePlace(s.group.free, s.caches, s.inUse, |s.group.deallocs|)
    && HaveTasks(s.caches, s.inUse, s.group.created)
  }

  lemma {:induction false} CachedUpdate(caches: seq<seq<Slot>>, w: nat, cache: seq<Slot>, x: Slot)
    requires w < |caches|
    ensures CachedCopies(caches[w := cache], x) + Copies(caches[w], x) == CachedCopies(caches, x) + Copies(cache, x)
    decreases w
  {
    if w == 0 {
      assert caches[0 := cache][1..] == caches[1..];
    } else {
      assert caches[w := cache][1..] == caches[1..][w - 1 := cache];
      CachedUpdate(caches[1..], w - 1, cache, x);
    }
  }

  lemma {:induction false} UpToCopies(n: nat, x: Slot)
    ensures Copies(UpTo(n), x) == if x < n then 1 else 0
    decreases n
  {
    if n > 0 {
      UpToCopies(n - 1, x);
      assert UpTo(n) == UpTo(n - 1) + [n - 1];
      CopiesConcat(UpTo(n - 1), [n - 1], x);
    }
  }

  lemma {:induction false} NothingCached(n: nat, x: Slot)
    ensures CachedCopies(NoCaches(n), x) == 0
    decreases n
  {
    if n > 0 {
      assert NoCaches(n)[1..] == NoCaches(n - 1);
      NothingCached(n - 1, x);
    }
  }

  // ---- Moves of slots ----

  // From the front of the free list to the front of use.
  lemma FreeToUse(free: seq<Slot>, caches: seq<seq<Slot>>, inUse: set<Slot>, size: nat)
    requires OnePlace(free, caches, inUse, size) && free != []
    ensures OnePlace(free[1..], caches, inUse + {free[0]}, size)
  {
    forall x: Slot ensures Places(free[1..], caches, inUse + {free[0]}, x) == if x < size then 1 else 0 {
      assert Places(free, caches, inUse, x) == if x < size then 1 else 0;
      assert free == [free[0]] + free[1..];
      CopiesConcat([free[0]], free[1..], x);
      CopiesOne(free[0], x);
    }
  }

  // The first k free slots go to a worker's empty cache.
  lemma FreeToCache(free: seq<Slot>, caches: seq<seq<Slot>>, inUse: set<Slot>, size: nat, w: nat, k: nat)
    requires OnePlace(free, caches, inUse, size) && w < |caches| && caches[w] == [] && k <= |free|
    ensures OnePlace(free[k..], caches[w := free[..k]], inUse, size)
  {
    var caches' := caches[w := free[..k]];
    forall x: Slot ensures Places(free[k..], caches', inUse, x) == if x < size then 1 else 0 {
      assert Places(free, caches, inUse, x) == if x < size then 1 else 0;
      assert free == free[..k] + free[k..];
      CopiesConcat(free[..k], free[k..], x);
      CachedUpdate(caches, w, free[..k], x);
    }
  }

  // The last slot of a worker's cache comes into use.
  lemma CacheToUse(free: seq<Slot>, caches: seq<seq<Slot>>, inUse: set<Slot>, size: nat, w: nat, rest: seq<Slot>, y: Slot)
    requires OnePlace(free, caches, inUse, size) && w < |caches| && caches[w] == rest + [y]
    ensures OnePlace(free, caches[w := rest], inUse + {y}, size)
  {
    var caches' := caches[w := rest];
    forall x: Slot ensures Places(free, caches', inUse + {y}, x) == if x < size then 1 else 0 {
      assert Places(free, caches, inUse, x) == if x < size then 1 else 0;
      CachedUpdate(caches, w, rest, x);
      CopiesConcat(rest, [y], x);
      CopiesOne(y, x);
    }
  }

  lemma UseToCache(free: seq<Slot>, caches: seq<seq<Slot>>, inUse: set<Slot>, size: nat, w: nat, y: Slot)
    requires OnePlace(free, caches, inUse, size) && w < |caches| && y in inUse
    ensures OnePlace(free, caches[w := caches[w] + [y]], inUse - {y}, size)
  {
    var caches' := caches[w := caches[w] + [y]];
    forall x: Slot ensures Places(free, caches', inUse - {y}, x) == if x < size then 1 else 0 {
      assert Places(free, caches, inUse, x) == if x < size then 1 else 0;
      CachedUpdate(caches, w, caches[w] + [y], x);
      CopiesConcat(caches[w], [y], x);
      CopiesOne(y, x);
    }
  }

  lemma UseToFree(free: seq<Slot>, caches: seq<seq<Slot>>, inUse: set<Slot>, size: nat, y: Slot)
    requires OnePlace(free, caches, inUse, size) && y in inUse
    ensures OnePlace([y] + free, caches, inUse - {y}, size)
  {
    forall x: Slot ensures Places([y] + free, caches, inUse - {y}, x) == if x < size then 1 else 0 {
      assert Places(free, caches, inUse, x) == if x < size then 1 else 0;
      CopiesConcat([y], free, x);
      CopiesOne(y, x);
    }
  }

  lemma {:induction false} DeallocAllMoves(g: Group, slots: seq<Slot>, x: Slot)
    ensures var g' := DeallocAll(g, slots);
      && Copies(g'.free, x) == Copies(g.free, x) + Copies(slots, x)
      && |g'.deallocs| == |g.deallocs| && g'.created == g.created
    decreases |slots|
  {
    if slots != [] {
      assert slots == [slots[0]] + slots[1..];
      CopiesConcat([slots[0]], slots[1..], x);
      CopiesConcat([slots[0]], g.free, x);
      DeallocAllMoves(Dealloc(g, slots[0]), slots[1..], x);
    }
  }

  lemma CacheToFree(g: Group, caches: seq<seq<Slot>>, inUse: set<Slot>, size: nat, w: nat)
    requires OnePlace(g.free, caches, inUse, size) && w < |caches|
    ensures OnePlace(DeallocAll(g, caches[w]).free, caches[w := []], inUse, size)
  {
    var free := DeallocAll(g, caches[w]).free;
    var caches' := caches[w := []];
    forall x: Slot ensures Places(free, caches', inUse, x) == if x < size then 1 else 0 {
      assert Places(g.free, caches, inUse, x) == if x < size then 1 else 0;
      DeallocAllMoves(g, caches[w], x);
      CachedUpdate(caches, w, [], x);
    }
  }

  // ---- Every operation keeps the invariant ----

  lemma TakeFromGroupKeepsInv(s: State)
    requires Inv(s)
    ensures Inv(TakeFromGroup(s))
  {
    if s.group.free != [] {
      FreeToUse(s.group.free, s.caches, s.inUse, |s.group.deallocs|);
    }
  }

  lemma RefillKeepsInv(s: State, w: nat)
    requires Inv(s) && w < |s.caches| && s.caches[w] == []
    ensures var (g, cache) := Refill(s.group, []); Inv(s.(group := g, caches := s.caches[w := cache]))
  {
    var k := Claimable(s.group, CACHE_SIZE);
    FreeToCache(s.group.free, s.caches, s.inUse, |s.group.deallocs|, w, k);
    assert [] + s.group.free[..k] == s.group.free[..k];
  }

  lemma PopCacheKeepsInv(s: State, w: nat, rest: seq<Slot>, y: Slot)
    requires Inv(s) && w < |s.caches| && s.caches[w] == rest + [y]
    ensures Inv(s.(caches := s.caches[w := rest], inUse := s.inUse + {y}))
  {
    CacheToUse(s.group.free, s.caches, s.inUse, |s.group.deallocs|, w, rest, y);
    assert CacheInv(s.caches[w], s.group.created);
  }

  lemma TakeCachedKeepsInv(s: State, w: nat)
    requires Inv(s) && w < |s.caches|
    ensures Inv(TakeCached(s, w))
  {
    var (g, cache) := if s.caches[w] != [] then (s.group, s.caches[w]) else Refill(s.group, s.caches[w]);
    if s.caches[w] == [] {
      RefillKeepsInv(s, w);
    }
    var s1 := s.(group := g, caches := s.caches[w := cache]);
    assert Inv(s1) by {
      assert s.caches[w] != [] ==> s.caches[w := cache] == s.caches;
    }
    if cache == [] {
      TakeFromGroupKeepsInv(s1);
    } else {
      var rest, y := cache[..|cache| - 1], cache[|cache| - 1];
      assert cache == rest + [y];
      PopCacheKeepsInv(s1, w, rest, y);
      assert s1.caches[w := rest] == s.caches[w := rest];
    }
  }

  lemma GiveBackKeepsInv(s: State, worker: Option<nat>, slot: Slot)
    requires Inv(s)
    ensures Inv(GiveBackTo(s, worker, slot))
  {
    if slot in s.inUse {
      UseToFree(s.group.free, s.caches, s.inUse, |s.group.deallocs|, slot);
      if worker.Some? && worker.value < |s.caches| {
        var w := worker.value;
        assert CacheInv(s.caches[w], s.group.created);
        UseToCache(s.group.free, s.caches, s.inUse, |s.group.deallocs|, w, slot);
        assert s.caches[w := s.caches[w]] == s.caches;
      }
    }
  }

  lemma DrainKeepsInv(s: State, w: nat)
    requires Inv(s) && w < |s.caches|
    ensures Inv(Apply(s, Drain(w)))
  {
    DeallocAllMoves(s.group, s.caches[w], 0);
    CacheToFree(s.group, s.caches, s.inUse, |s.group.deallocs|, w);
  }

  lemma ApplyKeepsInv(s: State, a: Action)
    requires Inv(s)
    ensures Inv(Apply(s, a))
  {
    match a {
      case Take(worker) =>
        if worker.Some? && worker.value < |s.caches| {
          TakeCachedKeepsInv(s, worker.value);
        } else {
          TakeFromGroupKeepsInv(s);
        }
      case GiveBack(worker, slot) => GiveBackKeepsInv(s, worker, slot);
      case Drain(w) =>
        if w < |s.caches| {
          DrainKeepsInv(s, w);
        }
    }
  }

  lemma {:induction false} RunKeepsInv(s: State, actions: seq<Action>)
    requires Inv(s)
    ensures Inv(RunFrom(s, actions))
    decreases |actions|
  {
    if actions != [] {
      ApplyKeepsInv(s, actions[0]);
      RunKeepsInv(Apply(s, actions[0]), actions[1..]);
    }
  }

  lemma InvAlways(size: nat, workers: nat, actions: seq<Action>)
    ensures Inv(RunFrom(Start(size, workers), actions))
  {
    forall x: Slot ensures Places(UpTo(size), NoCaches(workers), {}, x) == if x < size then 1 else 0 {
      UpToCopies(size, x);
      NothingCached(workers, x);
    }
    RunKeepsInv(Start(size, workers), actions);
  }

  /** A Take brings into use one slot that was not, and its task exists; or nothing changes in
      use when no slot is left. */
  lemma TakeIsNew(s: State, worker: Option<nat>)
    requires Inv(s)
    ensures var s' := Apply(s, Take(worker));
      match TakenSlot(s, worker)
      case None => s'.inUse == s.inUse
      case Some(slot) =>
        slot !in s.inUse && slot < |s.group.deallocs| && slot in s'.group.created && s'.inUse == s.inUse + {slot}
  {
    ApplyKeepsInv(s, Take(worker));
    var slot := TakenSlot(s, worker);
    if slot.Some? {
      TakenWasIdle(s, worker, slot.value);
      assert Places(s.group.free, s.caches, s.inUse, slot.value) == if slot.value < |s.group.deallocs| then 1 else 0;
    }
  }

  lemma TakenWasIdle(s: State, worker: Option<nat>, slot: Slot)
    requires TakenSlot(s, worker) == Some(slot)
    ensures Copies(s.group.free, slot) + CachedCopies(s.caches, slot) > 0
  {
    CopiesIn(s.group.free, slot);
    if worker.Some? && worker.value < |s.caches| && s.caches[worker.value] != [] {
      var cache := s.caches[worker.value];
      CopiesIn(cache, cache[|cache| - 1]);
      CachedUpdate(s.caches, worker.value, [], slot);
    }
  }

  /** While a slot is in use its generation stays, whatever is done with other slots. */
  lemma UsedKeepsGeneration(s: State, a: Action, slot: Slot)
    requires Inv(s) && slot in s.inUse && slot < |s.group.deallocs| && !(a.GiveBack? && a.slot == slot)
    ensures var s' := Apply(s, a);
      && |s'.group.deallocs| == |s.group.deallocs| && s'.group.deallocs[slot] == s.group.deallocs[slot]
      && slot in s'.inUse && slot in s'.group.created
  {
    ApplyIsLater(s, a);
    ApplyKeepsInv(s, a);
    if a.Drain? && a.w < |s.caches| {
      assert Places(s.group.free, s.caches, s.inUse, slot) == 1;
      CachedUpdate(s.caches, a.w, [], slot);
      CopiesIn(s.caches[a.w], slot);
      DeallocOthers(s.group, s.caches[a.w], slot);
    }
  }

  lemma {:induction false} DeallocOthers(g: Group, slots: seq<Slot>, slot: Slot)
    requires slot < |g.deallocs| && slot !in slots
    ensures var g' := DeallocAll(g, slots);
      |g'.deallocs| == |g.deallocs| && g'.deallocs[slot] == g.deallocs[slot]
    decreases |slots|
  {
    if slots != [] {
      DeallocOthers(Dealloc(g, slots[0]), slots[1..], slot);
    }
  }

  // ---- Handles ----

  // Nothing that has been returned is taken back: counts only grow, tasks stay created.
  predicate Later(g: Group, g': Group) {
    && |g'.deallocs| == |g.deallocs| && g.created <= g'.created
    && forall slot | 0 <= slot < |g.deallocs| :: g.deallocs[slot] <= g'.deallocs[slot]
  }

  lemma {:induction false} DeallocAllIsLater(g: Group, slots: seq<Slot>)
    ensures Later(g, DeallocAll(g, slots))
    decreases |slots|
  {
    if slots != [] {
      DeallocAllIsLater(Dealloc(g, slots[0]), slots[1..]);
    }
  }

  lemma ApplyIsLater(s: State, a: Action)
    ensures Later(s.group, Apply(s, a).group)
  {
    if a.Drain? && a.w < |s.caches| {
      DeallocAllIsLater(s.group, s.caches[a.w]);
    }
  }

  lemma {:induction false} RunIsLater(s: State, actions: seq<Action>)
    ensures Later(s.group, RunFrom(s, actions).group)
    decreases |actions|
  {
    if actions != [] {
      ApplyIsLater(s, actions[0]);
      RunIsLater(Apply(s, actions[0]), actions[1..]);
    }
  }

  lemma GenerationsAgree(m: nat, n: nat)
    requires m <= n
    ensures Wrap32(1 + m) == Wrap32(1 + n) <==> (n - m) % 0x1_0000_0000 == 0
  {
    WrapDifference(1 + m, 1 + n);
  }

  lemma LookupLater(g: Group, g': Group, slot: Slot)
    requires slot < |g.deallocs| && slot in g.created && Later(g, g')
    ensures Lookup(g', Word(Generation(g, slot), slot)) ==
      if (g'.deallocs[slot] - g.deallocs[slot]) % 0x1_0000_0000 == 0 then Some(slot) else None
  {
    GenerationsAgree(g.deallocs[slot], g'.deallocs[slot]);
  }

  lemma DecodeEncoded(g: Group, slot: Slot, generation: nat)
    requires slot < 0x1_0000_0000 && generation < 0x1_0000_0000
    ensures DecodeId(g, EncodeId(slot, generation)) == Lookup(g, Word(generation, slot))
  {
    PackUnpack(Word(generation, slot), 0);
  }

  /** A handle is the generation above the slot, and the first generation is 1. */
  lemma FirstHandle(size: nat, slot: Slot)
    requires slot < size
    ensures EncodeId(slot, Generation(StartGroup(size), slot)) == 0x1_0000_0000 + slot
  {
  }

  /** A handle issued for a slot decodes, in any later state, to that slot or to nothing; to
      the slot exactly when the number of its deallocations in between is a multiple of 2^32. */
  lemma HandleGoesStale(s: State, slot: Slot, actions: seq<Action>)
    requires slot < |s.group.deallocs| <= 0x1_0000_0000 && slot in s.group.created
    ensures var g, g' := s.group, RunFrom(s, actions).group;
      && |g'.deallocs| == |g.deallocs| && g.deallocs[slot] <= g'.deallocs[slot]
      && DecodeId(g', EncodeId(slot, Generation(g, slot))) ==
        if (g'.deallocs[slot] - g.deallocs[slot]) % 0x1_0000_0000 == 0 then Some(slot) else None
  {
    RunIsLater(s, actions);
    var g, g' := s.group, RunFrom(s, actions).group;
    LookupLater(g, g', slot);
    DecodeEncoded(g', slot, Generation(g, slot));
  }

  /** Below the wrap: an issued handle decodes to its own slot until the slot's next
      deallocation, and to nothing ever after. */
  lemma HandleDecodesUntilDealloc(s: State, slot: Slot, actions: seq<Action>)
    requires slot < |s.group.deallocs| <= 0x1_0000_0000 && slot in s.group.created
    requires var g' := RunFrom(s, actions).group;
      |g'.deallocs| == |s.group.deallocs| && g'.deallocs[slot] < s.group.deallocs[slot] + 0x1_0000_0000
    ensures var g' := RunFrom(s, actions).group;
      DecodeId(g', EncodeId(slot, Generation(s.group, slot))) ==
        if g'.deallocs[slot] == s.group.deallocs[slot] then Some(slot) else None
  {
    HandleGoesStale(s, slot, actions);
  }

  lemma BackAndForth(s: State, slot: Slot, rest: seq<Action>)
    requires slot in s.inUse && slot < |s.group.deallocs|
    ensures var s' := Apply(Apply(s, GiveBack(None, slot)), Take(None));
      && RunFrom(s, [GiveBack(None, slot), Take(None)] + rest) == RunFrom(s', rest)
      && slot in s'.inUse && slot in s'.group.created && |s'.group.deallocs| == |s.group.deallocs|
      && s'.group.deallocs[slot] == s.group.deallocs[slot] + 1
  {
    var run := [GiveBack(None, slot), Take(None)] + rest;
    assert run[1..][1..] == rest;
    assert RunFrom(s, run) == RunFrom(Apply(s, run[0]), run[1..]);
  }

  lemma {:induction false} AroundTimes(s: State, slot: Slot, n: nat) returns (actions: seq<Action>)
    requires slot in s.inUse && slot in s.group.created && slot < |s.group.deallocs|
    ensures var s' := RunFrom(s, actions);
      && slot in s'.inUse && |s'.group.deallocs| == |s.group.deallocs|
      && s'.group.deallocs[slot] == s.group.deallocs[slot] + n
    decreases n
  {
    if n == 0 {
      actions := [];
    } else {
      var s' := Apply(Apply(s, GiveBack(None, slot)), Take(None));
      BackAndForth(s, slot, []);
      var rest := AroundTimes(s', slot, n - 1);
      BackAndForth(s, slot, rest);
      actions := [GiveBack(None, slot), Take(None)] + rest;
    }
  }

  /** It wraps: after 2^32 turns of the only slot the handle of the first task decodes again, to
      the task that is in the slot now. */
  lemma HandleComesBack() returns (actions: seq<Action>)
    ensures var s := Apply(Start(1, 0), Take(None)); var s' := RunFrom(s, actions);
      && 0 in s.inUse && 0 in s'.inUse && |s.group.deallocs| == |s'.group.deallocs| == 1
      && s'.group.deallocs[0] == s.group.deallocs[0] + 0x1_0000_0000
      && DecodeId(s'.group, EncodeId(0, Generation(s.group, 0))) == Some(0)
  {
    assert UpTo(1) == [0];
    var s := Apply(Start(1, 0), Take(None));
    actions := AroundTimes(s, 0, 0x1_0000_0000);
    HandleGoesStale(s, 0, actions);
  }

  /** A slot that goes back through a worker's cache keeps its generation, so its next task has
      the handle of the one before: the same handle stands for two tasks in turn. */
  lemma CachedHandleIsReused()
    ensures var s1 := Apply(Start(4, 1), Take(Some(0)));
      var s3 := Apply(Apply(s1, GiveBack(Some(0), 3)), Take(Some(0)));
      && s1.inUse == s3.inUse == {3} && 3 < |s1.group.deallocs| == |s3.group.deallocs|
      && EncodeId(3, Generation(s1.group, 3)) == EncodeId(3, Generation(s3.group, 3))
  {
    var s0 := Start(4, 1);
    assert UpTo(4) == [0, 1, 2, 3];
    assert [] + [0, 1, 2, 3] == [0, 1, 2, 3];
    var s1 := Apply(s0, Take(Some(0)));
    assert s1.caches[0] == [0, 1, 2] && s1.inUse == {3};
    var s2 := Apply(s1, GiveBack(Some(0), 3));
    assert s2.caches[0] == [0, 1, 2, 3];
  }

  /** In every reachable state every slot is in exactly one place, once: on the free list, in
      one worker's cache, or in use; so the free list has no cycle. */
  lemma OnePlaceAlways(size: nat, workers: nat, actions: seq<Action>, slot: Slot)
    requires slot < size
    ensures var s := RunFrom(Start(size, workers), actions);
      multiset(s.group.free)[slot] + CachedCopies(s.caches, slot) + (if slot in s.inUse then 1 else 0) == 1
  {
    InvAlways(size, workers, actions);
    RunIsLater(Start(size, workers), actions);
    var s := RunFrom(Start(size, workers), actions);
    assert Places(s.group.free, s.caches, s.inUse, slot) == 1;
  }

  /** A batch claim takes the first slots of the free list, as many as were asked for, at most
      sixteen; they are all different and none is left free, in a cache or in use. */
  lemma ClaimedSlotsAreFree(size: nat, workers: nat, actions: seq<Action>, count: nat)
    ensures var s := RunFrom(Start(size, workers), actions); var (g, slots) := AllocMultiple(s.group, count);
      && |slots| == Min(Min(count, 16), |s.group.free|) && slots + g.free == s.group.free
      && (forall i, j | 0 <= i < j < |slots| :: slots[i] != slots[j])
      && forall x | x in slots :: x < size && x !in s.inUse && CachedCopies(s.caches, x) == 0 && x !in g.free
  {
    InvAlways(size, workers, actions);
    RunIsLater(Start(size, workers), actions);
    var s := RunFrom(Start(size, workers), actions);
    ClaimIsFresh(s, size, Claimable(s.group, count));
  }

  lemma ClaimIsFresh(s: State, size: nat, k: nat)
    requires OnePlace(s.group.free, s.caches, s.inUse, size) && k <= |s.group.free|
    ensures var slots, rest := s.group.free[..k], s.group.free[k..];
      && slots + rest == s.group.free
      && (forall i, j | 0 <= i < j < k :: slots[i] != slots[j])
      && forall x | x in slots :: x < size && x !in s.inUse && CachedCopies(s.caches, x) == 0 && x !in rest
  {
    var free := s.group.free;
    assert free == free[..k] + free[k..];
    forall x | x in free[..k]
      ensures x < size && x !in s.inUse && CachedCopies(s.caches, x) == 0 && x !in free[k..] && Copies(free[..k], x) == 1
    {
      assert Places(free, s.caches, s.inUse, x) == if x < size then 1 else 0;
      CopiesConcat(free[..k], free[k..], x);
      CopiesIn(free[..k], x);
      CopiesIn(free[k..], x);
    }
    forall i, j | 0 <= i < j < k ensures free[..k][i] != free[..k][j] {
      assert free[..k][i] in free[..k];
      TwiceCounts(free[..k], i, j);
    }
  }

  lemma TwiceCounts(s: seq<Slot>, i: nat, j: nat)
    requires i < j < |s| && Copies(s, s[i]) == 1
    ensures s[i] != s[j]
  {
    assert s == s[..j] + s[j..];
    CopiesConcat(s[..j], s[j..], s[i]);
    assert s[..j][i] == s[i] && s[j..][0] == s[j];
    CopiesIn(s[..j], s[i]);
    CopiesIn(s[j..], s[i]);
  }
}
