/**
 The timers over whole runs: schedulers, cancellers and the timer thread interleave one
 locked section at a time. A section is drawing an id, inserting into a shard, scanning one
 shard for an id to cancel, or one turn of ProcessShard's loop; the timer thread's pass over
 the shards reads each cached deadline without the lock. `places` and `log` are history: what
 has become of every id, and the callbacks and successful cancellations in order.
 */
module TimerRuns {
  import opened TimerHeap
  import opened TimerShard

  datatype Phase =
    | Asleep
    | Scanning(shard: nat, scanNow: int)
    | Processing(shard: nat, scanNow: int, now: int)

  datatype Place =
    | Drawn(t: Timer)
    | Queued(shard: nat, t: Timer)
    | Called
    | Dropped

  datatype Event = Fired(t: Timer, at: int) | Cancelled(id: nat)

  datatype State = State(
    shards: seq<ShardState>, nextId: nat, clock: int, phase: Phase, places: map<nat, Place>, log: seq<Event>)

  datatype Action =
    | Tick(elapsed: nat)
    | DrawId(deadline: int, arg: nat)
    | InsertInto(shard: nat, id: nat)
    | CancelIn(shard: nat, id: nat)
    | WakeUp
    | ThreadStep

  function Start(workers: nat, clock: int): State {
    State(seq(workers, _ => ShardState([], NEVER)), 0, clock, Asleep, map[], [])
  }

  // ---- One step ----

  function Draw(s: State, deadline: int, arg: nat): State {
    var t := Timer(s.nextId, deadline, arg, false);
    s.(nextId := s.nextId + 1, places := s.places[s.nextId := Drawn(t)])
  }

  function InsertStep(s: State, shard: nat, id: nat): State {
    if shard < |s.shards| && id in s.places && s.places[id].Drawn? then
      var t := s.places[id].t;
      s.(shards := s.shards[shard := Added(s.shards[shard], t)], places := s.places[id := Queued(shard, t)])
    else s
  }

  predicate InShard(s: State, shard: nat, id: nat) {
    shard < |s.shards| && HasId(s.shards[shard].heap, id)
  }

  function CancelStep(s: State, shard: nat, id: nat): State {
    if InShard(s, shard, id) then
      var place :=
        if id in s.places && s.places[id].Queued? then Queued(shard, s.places[id].t.(cancelled := true)) else Dropped;
      s.(shards := s.shards[shard := Marked(s.shards[shard], id)],
         places := s.places[id := place],
         log := s.log + [Cancelled(id)])
    else s
  }

  function Look(s: State): State
    requires s.phase.Scanning?
  {
    var i, now := s.phase.shard, s.phase.scanNow;
    if i >= |s.shards| then s.(phase := Asleep)
    else if s.shards[i].nextDeadline <= now then s.(phase := Processing(i, now, s.clock))
    else s.(phase := Scanning(i + 1, now))
  }

  function Turn(s: State): State
    requires s.phase.Processing? && s.phase.shard < |s.shards|
  {
    var i := s.phase.shard;
    var shard := s.shards[i];
    if RootDue(shard, s.phase.now) then
      var root := shard.heap[0];
      s.(shards := s.shards[i := RootTaken(shard)],
         places := s.places[root.id := if root.cancelled then Dropped else Called],
         log := if root.cancelled then s.log else s.log + [Fired(root, s.clock)])
    else s.(shards := s.shards[i := Settled(shard)], phase := Scanning(i + 1, s.phase.scanNow))
  }

  function ThreadNext(s: State): State {
    if s.phase.Scanning? then Look(s)
    else if s.phase.Processing? && s.phase.shard < |s.shards| then Turn(s)
    else s
  }

  function Apply(s: State, a: Action): (r: State)
    ensures |r.shards| == |s.shards|
  {
    match a
    case Tick(elapsed) => s.(clock := s.clock + elapsed)
    case DrawId(deadline, arg) => Draw(s, deadline, arg)
    case InsertInto(shard, id) => InsertStep(s, shard, id)
    case CancelIn(shard, id) => CancelStep(s, shard, id)
    case WakeUp => if s.phase.Asleep? then s.(phase := Scanning(0, s.clock)) else s
    case ThreadStep => ThreadNext(s)
  }

  function RunFrom(s: State, actions: seq<Action>): (r: State)
    ensures |r.shards| == |s.shards|
    decreases |actions|
  {
    if actions == [] then s else RunFrom(Apply(s, actions[0]), actions[1..])
  }

  // ---- The invariant ----

  // The heap holds exactly the timers whose place is this shard, each once.
  ghost predicate Holds(h: seq<Timer>, shard: nat, places: map<nat, Place>) {
    forall t: Timer ::
      multiset(h)[t] == if t.id in places && places[t.id] == Queued(shard, t) then 1 else 0
  }

  ghost predicate ShardsInv(shards: seq<ShardState>, places: map<nat, Place>) {
    forall i: nat | i < |shards| :: ShardInv(shards[i]) && Holds(shards[i].heap, i, places)
  }

  ghost predicate PlacesInv(places: map<nat, Place>, nextId: nat, shards: nat) {
    && (forall id: nat :: id in places <==> id < nextId)
    && (forall id: nat | id in places && places[id].Drawn? :: places[id].t.id == id && !places[id].t.cancelled)
    && (forall id: nat | id in places && places[id].Queued? :: places[id].t.id == id && places[id].shard < shards)
  }

  predicate CancelledPlace(p: Place) {
    p.Dropped? || (p.Queued? && p.t.cancelled)
  }

  // The log against the places.
  ghost predicate LogInv(log: seq<Event>, places: map<nat, Place>) {
    && (forall k | 0 <= k < |log| && log[k].Fired? ::
      log[k].t.id in places && places[log[k].t.id] == Called && !log[k].t.cancelled && log[k].t.deadline <= log[k].at)
    && (forall j, k | 0 <= j < k < |log| && log[j].Fired? && log[k].Fired? :: log[j].t.id != log[k].t.id)
    && (forall id: nat | id in places && places[id].Called? :: FiredId(log, id))
    && (forall id: nat :: Cancelled(id) in log <==> id in places && CancelledPlace(places[id]))
  }

  predicate FiredId(log: seq<Event>, id: nat) {
    exists k | 0 <= k < |log| :: log[k].Fired? && log[k].t.id == id
  }

  predicate PhaseInv(phase: Phase, clock: int, shards: nat) {
    match phase
    case Asleep => true
    case Scanning(i, scanNow) => i <= shards && scanNow <= clock
    case Processing(i, scanNow, now) => i < shards && scanNow <= now <= clock
  }

  ghost predicate Inv(s: State) {
    && ShardsInv(s.shards, s.places)
    && PlacesInv(s.places, s.nextId, |s.shards|)
    && LogInv(s.log, s.places)
    && PhaseInv(s.phase, s.clock, |s.shards|)
  }

  // ---- Every step keeps the invariant ----

  // A shard that the id neither leaves nor enters still holds its timers.
  lemma HoldsOther(h: seq<Timer>, shard: nat, places: map<nat, Place>, id: nat, p: Place)
    requires Holds(h, shard, places)
    requires id in places ==> !(places[id].Queued? && places[id].shard == shard)
    requires !(p.Queued? && p.shard == shard)
    ensures Holds(h, shard, places[id := p])
  {
  }

  lemma ShardsAfter(shards: seq<ShardState>, places: map<nat, Place>, i: nat, shard: ShardState, id: nat, p: Place)
    requires ShardsInv(shards, places) && i < |shards|
    requires ShardInv(shard) && Holds(shard.heap, i, places[id := p])
    requires id in places ==> !(places[id].Queued? && places[id].shard != i)
    requires !(p.Queued? && p.shard != i)
    ensures ShardsInv(shards[i := shard], places[id := p])
  {
    forall j: nat | j < |shards| && j != i ensures Holds(shards[j].heap, j, places[id := p]) {
      HoldsOther(shards[j].heap, j, places, id, p);
    }
  }

  lemma DrawKeepsInv(s: State, deadline: int, arg: nat)
    requires Inv(s)
    ensures Inv(Draw(s, deadline, arg))
  {
    var p := Drawn(Timer(s.nextId, deadline, arg, false));
    forall j: nat | j < |s.shards| ensures Holds(s.shards[j].heap, j, s.places[s.nextId := p]) {
      HoldsOther(s.shards[j].heap, j, s.places, s.nextId, p);
    }
    assert s.nextId !in s.places;
  }

  lemma InsertHolds(h: seq<Timer>, shard: nat, places: map<nat, Place>, t: Timer)
    requires IsHeap(h) && Holds(h, shard, places) && t.id in places && places[t.id] == Drawn(t)
    ensures Holds(Insert(h, t), shard, places[t.id := Queued(shard, t)])
  {
    InsertIsHeap(h, t);
  }

  lemma InsertKeepsInv(s: State, shard: nat, id: nat)
    requires Inv(s)
    ensures Inv(InsertStep(s, shard, id))
  {
    if shard < |s.shards| && id in s.places && s.places[id].Drawn? {
      var t := s.places[id].t;
      AddedKeepsInv(s.shards[shard], t);
      InsertHolds(s.shards[shard].heap, shard, s.places, t);
      ShardsAfter(s.shards, s.places, shard, Added(s.shards[shard], t), id, Queued(shard, t));
      LogAfterInsert(s.log, s.places, id, Queued(shard, t));
    }
  }

  lemma LogAfterInsert(log: seq<Event>, places: map<nat, Place>, id: nat, p: Place)
    requires LogInv(log, places) && id in places && places[id].Drawn? && p.Queued? && !p.t.cancelled
    ensures LogInv(log, places[id := p])
  {
  }

  // The id stands for exactly one timer of the heap.
  lemma HeldId(h: seq<Timer>, shard: nat, places: map<nat, Place>, id: nat) returns (t: Timer)
    requires Holds(h, shard, places) && HasId(h, id)
    ensures id in places && places[id] == Queued(shard, t) && t.id == id
    ensures forall u | u in multiset(h) && u.id == id :: u == t
  {
    var k :| 0 <= k < |h| && h[k].id == id;
    t := h[k];
    assert t in multiset(h);
    forall u | u in multiset(h) && u.id == id ensures u == t {
      assert multiset(h)[u] == 1;
    }
  }

  lemma MarkHolds(h: seq<Timer>, shard: nat, places: map<nat, Place>, id: nat, t: Timer)
    requires IsHeap(h) && Holds(h, shard, places) && HasId(h, id)
    requires id in places && places[id] == Queued(shard, t) && t.id == id
    ensures Holds(MarkCancelled(h, id), shard, places[id := Queued(shard, t.(cancelled := true))])
  {
    MarkCancelledKeepsHeap(h, id);
    var u :| u in multiset(h) && u.id == id &&
      multiset(MarkCancelled(h, id)) == multiset(h) - multiset{u} + multiset{u.(cancelled := true)};
    assert multiset(h)[u] == 1;
    assert u == t;
    var t' := t.(cancelled := true);
    forall x: Timer ensures multiset(MarkCancelled(h, id))[x] ==
      multiset(h)[x] - (if x == t then 1 else 0) + (if x == t' then 1 else 0) {
      assert multiset(MarkCancelled(h, id))[x] == (multiset(h) - multiset{t} + multiset{t'})[x];
    }
    MarkedCounts(h, MarkCancelled(h, id), shard, places, t);
  }

  lemma MarkedCounts(h: seq<Timer>, h': seq<Timer>, shard: nat, places: map<nat, Place>, t: Timer)
    requires Holds(h, shard, places) && t.id in places && places[t.id] == Queued(shard, t)
    requires forall x: Timer ::
      multiset(h')[x] == multiset(h)[x] - (if x == t then 1 else 0) + (if x == t.(cancelled := true) then 1 else 0)
    ensures Holds(h', shard, places[t.id := Queued(shard, t.(cancelled := true))])
  {
  }

  lemma CancelKeepsInv(s: State, shard: nat, id: nat)
    requires Inv(s)
    ensures Inv(CancelStep(s, shard, id))
  {
    if InShard(s, shard, id) {
      var h := s.shards[shard].heap;
      var t := HeldId(h, shard, s.places, id);
      var p := Queued(shard, t.(cancelled := true));
      MarkedKeepsInv(s.shards[shard], id);
      MarkHolds(h, shard, s.places, id, t);
      ShardsAfter(s.shards, s.places, shard, Marked(s.shards[shard], id), id, p);
      LogAfterCancel(s.log, s.places, id, p);
    }
  }

  lemma LogAfterCancel(log: seq<Event>, places: map<nat, Place>, id: nat, p: Place)
    requires LogInv(log, places) && id in places && places[id].Queued? && CancelledPlace(p)
    ensures LogInv(log + [Cancelled(id)], places[id := p])
  {
    var log' := log + [Cancelled(id)];
    forall i: nat | i in places[id := p] && places[id := p][i].Called? ensures FiredId(log', i) {
      var k :| 0 <= k < |log| && log[k].Fired? && log[k].t.id == i;
      assert log'[k] == log[k];
    }
    forall i: nat ensures Cancelled(i) in log' <==> Cancelled(i) in log || i == id {
      assert Cancelled(id) == log'[|log|];
    }
  }

  lemma LogAfterFire(log: seq<Event>, places: map<nat, Place>, t: Timer, at: int)
    requires LogInv(log, places) && t.id in places && places[t.id].Queued? && places[t.id].t == t
    requires !t.cancelled && t.deadline <= at
    ensures LogInv(log + [Fired(t, at)], places[t.id := Called])
  {
    var log' := log + [Fired(t, at)];
    var places' := places[t.id := Called];
    forall i: nat | i in places' && places'[i].Called? ensures FiredId(log', i) {
      if i == t.id {
        assert log'[|log|].t.id == i;
      } else {
        var k :| 0 <= k < |log| && log[k].Fired? && log[k].t.id == i;
        assert log'[k] == log[k];
      }
    }
    forall i: nat ensures Cancelled(i) in log' <==> Cancelled(i) in log {
      assert log'[..|log|] == log;
    }
  }

  lemma LogAfterDrop(log: seq<Event>, places: map<nat, Place>, id: nat)
    requires LogInv(log, places) && id in places && places[id].Queued? && CancelledPlace(places[id])
    ensures LogInv(log, places[id := Dropped])
  {
  }

  lemma RootHeld(h: seq<Timer>, shard: nat, places: map<nat, Place>, p: Place)
    requires IsHeap(h) && h != [] && Holds(h, shard, places) && !p.Queued?
    ensures h[0].id in places && places[h[0].id] == Queued(shard, h[0])
    ensures Holds(PopRoot(h), shard, places[h[0].id := p])
  {
    PopRootIsHeap(h);
    var root := h[0];
    assert root in multiset(h);
    forall t: Timer ensures multiset(PopRoot(h))[t] == multiset(h)[t] - (if t == root then 1 else 0) {
      assert multiset(h)[t] == (multiset(PopRoot(h)) + multiset{root})[t];
    }
  }

  lemma TurnKeepsInv(s: State)
    requires Inv(s) && s.phase.Processing?
    ensures Inv(Turn(s))
  {
    var i := s.phase.shard;
    var shard := s.shards[i];
    if RootDue(shard, s.phase.now) {
      var root := shard.heap[0];
      var p := if root.cancelled then Dropped else Called;
      RootTakenKeepsInv(shard);
      RootHeld(shard.heap, i, s.places, p);
      ShardsAfter(s.shards, s.places, i, RootTaken(shard), root.id, p);
      if root.cancelled {
        LogAfterDrop(s.log, s.places, root.id);
      } else {
        LogAfterFire(s.log, s.places, root, s.clock);
      }
    } else {
      SettledKeepsInv(shard);
      var shards' := s.shards[i := Settled(shard)];
      forall j: nat | j < |shards'| ensures ShardInv(shards'[j]) && Holds(shards'[j].heap, j, s.places) {
        assert Holds(s.shards[j].heap, j, s.places);
      }
    }
  }

  lemma ApplyKeepsInv(s: State, a: Action)
    requires Inv(s)
    ensures Inv(Apply(s, a))
  {
    match a {
      case Tick(_) =>
      case DrawId(deadline, arg) => DrawKeepsInv(s, deadline, arg);
      case InsertInto(shard, id) => InsertKeepsInv(s, shard, id);
      case CancelIn(shard, id) => CancelKeepsInv(s, shard, id);
      case WakeUp =>
      case ThreadStep =>
        if s.phase.Processing? {
          TurnKeepsInv(s);
        }
    }
  }

  lemma {:induction false} RunKeepsInv(s: State, actions: seq<Action>)
    requires Inv(s)
    ensures Inv(RunFrom(s, actions))
    decreases |actions|
  {
    if actions != [] {
      ApplyKeepsInv(s, actions[0]);
      RunKeepsInv(Apply(s, actions[0]), actions[1..]);
    }
  }

  /** The invariant holds in every reachable state. */
  lemma InvAlways(workers: nat, clock: int, actions: seq<Action>)
    ensures Inv(RunFrom(Start(workers, clock), actions))
  {
    RunKeepsInv(Start(workers, clock), actions);
  }

  // ---- What the runs promise ----

  function After(workers: nat, clock: int, actions: seq<Action>): State {
    RunFrom(Start(workers, clock), actions)
  }

  /** Over every run a timer's callback runs at most once, never before its deadline, and never
      when a Cancel of it has returned true, before or after. */
  lemma FiresAtMostOnce(workers: nat, clock: int, actions: seq<Action>)
    ensures var log := After(workers, clock, actions).log;
      && (forall k | 0 <= k < |log| && log[k].Fired? ::
        log[k].t.deadline <= log[k].at && Cancelled(log[k].t.id) !in log)
      && forall j, k | 0 <= j < k < |log| && log[j].Fired? && log[k].Fired? :: log[j].t.id != log[k].t.id
  {
    InvAlways(workers, clock, actions);
  }

  /** No timer is lost or doubled: every id drawn either awaits its insertion, or is in exactly
      one heap, once, or has fired, or was dropped, and dropped ones were cancelled. */
  lemma EveryTimerAccounted(workers: nat, clock: int, actions: seq<Action>, id: nat)
    ensures var s := After(workers, clock, actions);
      && (id < s.nextId <==> id in s.places)
      && (id in s.places ==>
        match s.places[id]
        case Drawn(_) => !FiredId(s.log, id) && Cancelled(id) !in s.log && forall i: nat | i < workers :: !InShard(s, i, id)
        case Queued(shard, t) =>
          && !FiredId(s.log, id) && (Cancelled(id) in s.log <==> t.cancelled)
          && shard < |s.shards| && multiset(s.shards[shard].heap)[t] == 1
          && forall i: nat, u | i < |s.shards| && u in multiset(s.shards[i].heap) && u.id == id :: i == shard && u == t
        case Called => FiredId(s.log, id) && Cancelled(id) !in s.log && forall i: nat | i < workers :: !InShard(s, i, id)
        case Dropped => !FiredId(s.log, id) && Cancelled(id) in s.log && forall i: nat | i < workers :: !InShard(s, i, id))
  {
    InvAlways(workers, clock, actions);
    var s := After(workers, clock, actions);
    if id in s.places {
      forall i: nat | i < workers && InShard(s, i, id)
        ensures s.places[id].Queued? && s.places[id].shard == i
      {
        var _ := HeldId(s.shards[i].heap, i, s.places, id);
      }
      if s.places[id].Queued? {
        var shard, t := s.places[id].shard, s.places[id].t;
        assert Holds(s.shards[shard].heap, shard, s.places);
        forall i: nat, u | i < |s.shards| && u in multiset(s.shards[i].heap) && u.id == id ensures i == shard && u == t {
          assert Holds(s.shards[i].heap, i, s.places);
        }
      }
    }
  }

  /** An expired timer is never hidden: whenever the pass looks at a shard that holds an entry
      due at the pass's time, it processes the shard. */
  lemma ExpiredNeverHidden(workers: nat, clock: int, actions: seq<Action>, shard: nat, k: nat)
    requires shard < workers && k < |After(workers, clock, actions).shards[shard].heap|
    ensures var s := After(workers, clock, actions);
      && s.shards[shard].nextDeadline <= s.shards[shard].heap[k].deadline
      && (s.phase.Scanning? && s.phase.shard == shard && s.shards[shard].heap[k].deadline <= s.phase.scanNow ==>
        ThreadNext(s).phase.Processing? && ThreadNext(s).phase.shard == shard)
  {
    InvAlways(workers, clock, actions);
  }

  /** When the thread leaves a shard after processing it, the cached deadline is the heap's
      minimum unless the heap is empty. */
  lemma ExactAfterProcessing(workers: nat, clock: int, actions: seq<Action>)
    ensures var s := After(workers, clock, actions);
      s.phase.Processing? && ThreadNext(s).phase.Scanning? ==>
        && s.phase.shard < workers == |ThreadNext(s).shards|
        && var shard := ThreadNext(s).shards[s.phase.shard];
          shard.heap != [] ==>
            && shard.nextDeadline == shard.heap[0].deadline && s.phase.now < shard.nextDeadline
            && forall i | 0 <= i < |shard.heap| :: shard.heap[0].deadline <= shard.heap[i].deadline
  {
    InvAlways(workers, clock, actions);
    var s := After(workers, clock, actions);
    if s.phase.Processing? && ThreadNext(s).phase.Scanning? {
      var h := s.shards[s.phase.shard].heap;
      if h != [] {
        RootCovers(h);
      }
    }
  }

  // ---- A pass calls what is due ----

  // The pass that started at `now` is at this shard.
  predicate InTurn(phase: Phase, shard: nat, now: int) {
    (phase.Scanning? || phase.Processing?) && phase.shard == shard && phase.scanNow == now
  }

  predicate Done(p: Place) {
    p.Called? || p.Dropped?
  }

  predicate DueOrDone(s: State, shard: nat, now: int, id: nat) {
    && id in s.places
    && (Done(s.places[id])
        || (InTurn(s.phase, shard, now) && s.places[id].Queued? && s.places[id].shard == shard && s.places[id].t.deadline <= now))
  }

  lemma ApplyKeepsDueOrDone(s: State, a: Action, shard: nat, now: int, id: nat)
    requires Inv(s) && DueOrDone(s, shard, now, id)
    ensures DueOrDone(Apply(s, a), shard, now, id)
  {
    if a.CancelIn? && InShard(s, a.shard, a.id) {
      var _ := HeldId(s.shards[a.shard].heap, a.shard, s.places, a.id);
    } else if a.ThreadStep? {
      ThreadKeepsDueOrDone(s, shard, now, id);
    }
  }

  lemma ThreadKeepsDueOrDone(s: State, shard: nat, now: int, id: nat)
    requires Inv(s) && DueOrDone(s, shard, now, id)
    ensures DueOrDone(ThreadNext(s), shard, now, id)
  {
    if s.phase.Processing? && RootDue(s.shards[s.phase.shard], s.phase.now) {
      RootHeld(s.shards[s.phase.shard].heap, s.phase.shard, s.places, Called);
    } else if !Done(s.places[id]) {
      NothingDueUnnoticed(s, id);
    }
  }

  lemma NothingDueUnnoticed(s: State, id: nat)
    requires Inv(s) && id in s.places && s.places[id].Queued?
    requires !s.phase.Asleep? && s.phase.shard == s.places[id].shard && s.places[id].t.deadline <= s.phase.scanNow
    requires s.phase.Processing? ==> !RootDue(s.shards[s.phase.shard], s.phase.now)
    ensures s.phase.Scanning? && s.shards[s.phase.shard].nextDeadline <= s.phase.scanNow
  {
    var shard, t := s.shards[s.phase.shard], s.places[id].t;
    assert multiset(shard.heap)[t] == 1;
    var k :| 0 <= k < |shard.heap| && shard.heap[k] == t;
    RootIsMinimum(shard.heap, k);
  }

  lemma {:induction false} RunKeepsDueOrDone(s: State, actions: seq<Action>, shard: nat, now: int, id: nat)
    requires Inv(s) && DueOrDone(s, shard, now, id)
    ensures DueOrDone(RunFrom(s, actions), shard, now, id)
    decreases |actions|
  {
    if actions != [] {
      ApplyKeepsInv(s, actions[0]);
      ApplyKeepsDueOrDone(s, actions[0], shard, now, id);
      RunKeepsDueOrDone(Apply(s, actions[0]), actions[1..], shard, now, id);
    }
  }

  /** If a timer is in a shard and due when the pass reaches the shard, then once the pass has
      left the shard, whatever else happened, its callback has run or it was cancelled. */
  lemma PassCallsWhatIsDue(workers: nat, clock: int, before: seq<Action>, after: seq<Action>, id: nat)
    requires var s := After(workers, clock, before);
      && s.phase.Scanning? && id in s.places && s.places[id].Queued?
      && s.places[id].shard == s.phase.shard && s.places[id].t.deadline <= s.phase.scanNow
    ensures var s, s' := After(workers, clock, before), RunFrom(After(workers, clock, before), after);
      InTurn(s'.phase, s.phase.shard, s.phase.scanNow) || FiredId(s'.log, id) || Cancelled(id) in s'.log
  {
    InvAlways(workers, clock, before);
    var s := After(workers, clock, before);
    RunKeepsInv(s, after);
    RunKeepsDueOrDone(s, after, s.phase.shard, s.phase.scanNow, id);
  }

  // ---- A whole pass ----

  // The pass that started at `now` has still to leave this shard.
  predicate NotPast(phase: Phase, shard: nat, now: int) {
    (phase.Scanning? || phase.Processing?) && phase.shard <= shard && phase.scanNow == now
  }

  predicate AheadOrDone(s: State, shard: nat, now: int, id: nat) {
    && id in s.places
    && (Done(s.places[id])
        || (NotPast(s.phase, shard, now) && s.places[id].Queued? && s.places[id].shard == shard && s.places[id].t.deadline <= now))
  }

  lemma ApplyKeepsAheadOrDone(s: State, a: Action, shard: nat, now: int, id: nat)
    requires Inv(s) && shard < |s.shards| && AheadOrDone(s, shard, now, id)
    ensures AheadOrDone(Apply(s, a), shard, now, id)
  {
    if a.CancelIn? && InShard(s, a.shard, a.id) {
      var _ := HeldId(s.shards[a.shard].heap, a.shard, s.places, a.id);
    } else if a.ThreadStep? && !Done(s.places[id]) {
      if s.phase.shard == shard {
        ThreadKeepsDueOrDone(s, shard, now, id);
      } else if s.phase.Processing? && RootDue(s.shards[s.phase.shard], s.phase.now) {
        RootHeld(s.shards[s.phase.shard].heap, s.phase.shard, s.places, Called);
      }
    }
  }

  lemma {:induction false} RunKeepsAheadOrDone(s: State, actions: seq<Action>, shard: nat, now: int, id: nat)
    requires Inv(s) && shard < |s.shards| && AheadOrDone(s, shard, now, id)
    ensures AheadOrDone(RunFrom(s, actions), shard, now, id)
    decreases |actions|
  {
    if actions != [] {
      ApplyKeepsInv(s, actions[0]);
      ApplyKeepsAheadOrDone(s, actions[0], shard, now, id);
      RunKeepsAheadOrDone(Apply(s, actions[0]), actions[1..], shard, now, id);
    }
  }

  /** A pass leaves out no shard: a timer that is in any shard and due when the thread wakes up has,
      once the thread is asleep again or past its shard, been called or cancelled, whatever else
      happened. */
  lemma WholePassCallsWhatIsDue(workers: nat, clock: int, before: seq<Action>, after: seq<Action>, id: nat)
    requires var s := After(workers, clock, before);
      s.phase.Asleep? && id in s.places && s.places[id].Queued? && s.places[id].t.deadline <= s.clock
    ensures var s, s' := After(workers, clock, before), RunFrom(Apply(After(workers, clock, before), WakeUp), after);
      NotPast(s'.phase, s.places[id].shard, s.clock) || FiredId(s'.log, id) || Cancelled(id) in s'.log
  {
    InvAlways(workers, clock, before);
    var s := After(workers, clock, before);
    ApplyKeepsInv(s, WakeUp);
    RunKeepsInv(Apply(s, WakeUp), after);
    RunKeepsAheadOrDone(Apply(s, WakeUp), after, s.places[id].shard, s.clock, id);
  }

  // The thread processes this shard, with the clock reading `now`.
  predicate InCallAt(phase: Phase, shard: nat, now: int) {
    phase.Processing? && phase.shard == shard && phase.now == now
  }

  predicate DueInCall(s: State, shard: nat, now: int, id: nat) {
    && id in s.places
    && (Done(s.places[id])
        || (InCallAt(s.phase, shard, now) && s.places[id].Queued? && s.places[id].shard == shard && s.places[id].t.deadline <= now))
  }

  lemma ApplyKeepsDueInCall(s: State, a: Action, shard: nat, now: int, id: nat)
    requires Inv(s) && DueInCall(s, shard, now, id)
    ensures DueInCall(Apply(s, a), shard, now, id)
  {
    if a.CancelIn? && InShard(s, a.shard, a.id) {
      var _ := HeldId(s.shards[a.shard].heap, a.shard, s.places, a.id);
    } else if a.ThreadStep? {
      ThreadKeepsDueInCall(s, shard, now, id);
    }
  }

  lemma ThreadKeepsDueInCall(s: State, shard: nat, now: int, id: nat)
    requires Inv(s) && DueInCall(s, shard, now, id)
    ensures DueInCall(ThreadNext(s), shard, now, id)
  {
    if s.phase.Processing? && RootDue(s.shards[s.phase.shard], s.phase.now) {
      RootHeld(s.shards[s.phase.shard].heap, s.phase.shard, s.places, Called);
    } else if !Done(s.places[id]) {
      DueMakesRootDue(s, id);
    }
  }

  lemma DueMakesRootDue(s: State, id: nat)
    requires Inv(s) && id in s.places && s.places[id].Queued? && s.phase.Processing?
    requires s.phase.shard == s.places[id].shard && s.places[id].t.deadline <= s.phase.now
    ensures RootDue(s.shards[s.phase.shard], s.phase.now)
  {
    var shard, t := s.shards[s.phase.shard], s.places[id].t;
    assert multiset(shard.heap)[t] == 1;
    var k :| 0 <= k < |shard.heap| && shard.heap[k] == t;
    RootIsMinimum(shard.heap, k);
  }

  lemma {:induction false} RunKeepsDueInCall(s: State, actions: seq<Action>, shard: nat, now: int, id: nat)
    requires Inv(s) && DueInCall(s, shard, now, id)
    ensures DueInCall(RunFrom(s, actions), shard, now, id)
    decreases |actions|
  {
    if actions != [] {
      ApplyKeepsInv(s, actions[0]);
      ApplyKeepsDueInCall(s, actions[0], shard, now, id);
      RunKeepsDueInCall(Apply(s, actions[0]), actions[1..], shard, now, id);
    }
  }

  /** A shard whose cached deadline has come is processed by the clock as it is then, not by that of
      the pass: what is due in it at that moment is called or cancelled before the thread goes on. */
  lemma ProcessingReadsTheClock(workers: nat, clock: int, before: seq<Action>, after: seq<Action>, id: nat)
    requires var s := After(workers, clock, before);
      && s.phase.Scanning? && s.phase.shard < |s.shards| && s.shards[s.phase.shard].nextDeadline <= s.phase.scanNow
      && id in s.places && s.places[id].Queued? && s.places[id].shard == s.phase.shard && s.places[id].t.deadline <= s.clock
    ensures var s, s' := After(workers, clock, before), RunFrom(Apply(After(workers, clock, before), ThreadStep), after);
      InCallAt(s'.phase, s.phase.shard, s.clock) || FiredId(s'.log, id) || Cancelled(id) in s'.log
  {
    InvAlways(workers, clock, before);
    var s := After(workers, clock, before);
    ApplyKeepsInv(s, ThreadStep);
    RunKeepsInv(Apply(s, ThreadStep), after);
    RunKeepsDueInCall(Apply(s, ThreadStep), after, s.phase.shard, s.clock, id);
  }

  // ---- The cached deadlines are exact unless timers are cancelled ----

  // No cancellation, and deadlines that fit 64 bits.
  predicate Uncancelling(actions: seq<Action>) {
    forall a | a in actions :: !a.CancelIn? && (a.DrawId? ==> a.deadline <= 0x7FFF_FFFF_FFFF_FFFF)
  }

  ghost predicate ExactInv(s: State) {
    && (forall i | 0 <= i < |s.shards| :: Exact(s.shards[i]))
    && (forall e | e in s.log :: !e.Cancelled?)
    && (forall id | id in s.places && s.places[id].Drawn? :: s.places[id].t.deadline <= 0x7FFF_FFFF_FFFF_FFFF)
  }

  lemma RootIsUncancelled(s: State, i: nat)
    requires Inv(s) && ExactInv(s) && i < |s.shards| && s.shards[i].heap != []
    ensures !s.shards[i].heap[0].cancelled
  {
    var root := s.shards[i].heap[0];
    assert Holds(s.shards[i].heap, i, s.places);
    assert root in multiset(s.shards[i].heap);
    assert root.cancelled ==> CancelledPlace(s.places[root.id]);
  }

  lemma TurnKeepsExact(s: State)
    requires Inv(s) && ExactInv(s) && s.phase.Processing? && s.phase.shard < |s.shards|
    ensures ExactInv(Turn(s))
  {
    var i := s.phase.shard;
    if s.shards[i].heap != [] {
      RootIsUncancelled(s, i);
    }
  }

  lemma ApplyKeepsExact(s: State, a: Action)
    requires Inv(s) && ExactInv(s) && !a.CancelIn? && (a.DrawId? ==> a.deadline <= 0x7FFF_FFFF_FFFF_FFFF)
    ensures ExactInv(Apply(s, a))
  {
    if a.InsertInto? && a.shard < |s.shards| && a.id in s.places && s.places[a.id].Drawn? {
      AddedDeadline(s.shards[a.shard], s.places[a.id].t);
    } else if a.ThreadStep? && s.phase.Processing? && s.phase.shard < |s.shards| {
      TurnKeepsExact(s);
    }
  }

  lemma {:induction false} RunKeepsExact(s: State, actions: seq<Action>)
    requires Inv(s) && ExactInv(s) && Uncancelling(actions)
    ensures ExactInv(RunFrom(s, actions))
    decreases |actions|
  {
    if actions != [] {
      assert actions[0] in actions;
      ApplyKeepsInv(s, actions[0]);
      ApplyKeepsExact(s, actions[0]);
      RunKeepsExact(Apply(s, actions[0]), actions[1..]);
    }
  }

  /** In every run without cancellations the cached deadline of every shard is, at every moment, the
      minimum of its heap, and INT64_MAX as long as the heap is empty. */
  lemma CacheIsExact(workers: nat, clock: int, actions: seq<Action>, i: nat)
    requires Uncancelling(actions) && i < workers
    ensures Exact(After(workers, clock, actions).shards[i])
  {
    InvAlways(workers, clock, []);
    RunKeepsExact(Start(workers, clock), actions);
  }
}
