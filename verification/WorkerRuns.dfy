/**
 The workers over whole runs: batches, deques, the shards of the global queue, and tasks that
 are submitted, picked, yield and end. Each operation on a deque or a shard is one step, and
 any number of workers interleave. A deque gives its owner the last task and a thief the
 first, and a push that finds 1023 tasks in it makes it look empty, as `WorkStealing` shows:
 those tasks are out of reach from then on. A task that yields is queued first and leaves its
 stack last, in a step of its own. `submitted`, `retired` and `dropped` are history.
 */
module WorkerRuns {
  import opened Options
  import opened Sums

  type Task = nat

  const BATCH_SIZE := 8
  const ROOM := 1023

  datatype Stage =
    | Resting(last: Option<Task>)  // between tasks; what PickTask last returned
    | Picking                      // PickTask: look at the batch
    | Popping                      // PopMultiple: one pop after the other into the batch
    | OwnShard                     // PopGlobal: the shard of this worker
    | TryShard(next: nat)          // PopGlobal: the others
    | TrySteal(attempt: nat)
    | Running(task: Task)
    | Flushing(task: Task)         // MaybeFlushBatch of its yield: one push after the other
    | Saving(task: Task)           // it is queued; its context is still to be saved

  datatype Worker = Worker(batch: seq<Task>, queue: seq<Task>, stage: Stage)

  datatype State = State(
    workers: seq<Worker>, shards: seq<seq<Task>>, submitted: multiset<Task>, retired: multiset<Task>,
    dropped: multiset<Task>)

  datatype Action =
    | SubmitLocal(w: nat, task: Task)         // by worker w's task, or for joiners of the one it has run
    | SubmitGlobal(shard: nat, task: Task)    // from outside the workers
    | StartPick(w: nat)
    | Step(w: nat, contended: bool)           // contended: a Steal gives up after losing its races
    | Yield(w: nat)
    | End(w: nat)                             // the task finishes, or suspends itself

  function Start(count: nat): State {
    State(seq(count, _ => Worker([], [], Resting(None))), seq(count, _ => []), multiset{}, multiset{}, multiset{})
  }

  // ---- One step ----

  function Put(s: State, w: nat, worker: Worker): State
    requires w < |s.workers|
  {
    s.(workers := s.workers[w := worker])
  }

  function Last(s: seq<Task>): Task
    requires s != []
  {
    s[|s| - 1]
  }

  function Init(s: seq<Task>): seq<Task>
    requires s != []
  {
    s[..|s| - 1]
  }

  // What can be reached of a deque after a push, and what can no longer be.
  function Pushed(queue: seq<Task>, x: Task): seq<Task> {
    if |queue| >= ROOM then [] else queue + [x]
  }

  function Dropped(queue: seq<Task>, x: Task): multiset<Task> {
    if |queue| >= ROOM then multiset(queue + [x]) else multiset{}
  }

  // The attempt-th worker that the steal loop of worker w tries.
  function Victim(w: nat, attempt: nat, count: nat): nat
    requires count > 0
  {
    ((w + 1) % count + attempt) % count
  }

  function TakeFromBatch(me: Worker): Worker
    requires me.batch != []
  {
    Worker(Init(me.batch), me.queue, Running(Last(me.batch)))
  }

  function PopNext(me: Worker): Worker {
    if |me.batch| < BATCH_SIZE && me.queue != [] then
      me.(batch := me.batch + [Last(me.queue)], queue := Init(me.queue))
    else if me.batch != [] then TakeFromBatch(me)
    else me.(stage := OwnShard)
  }

  // The next worker state of a pick or flush step that concerns the worker alone.
  function LocalNext(me: Worker): Worker {
    match me.stage
    case Picking => if me.batch != [] then TakeFromBatch(me) else me.(stage := Popping)
    case Popping => PopNext(me)
    case Flushing(task) =>
      if me.batch == [] then me.(stage := Saving(task))
      else me.(batch := me.batch[1..], queue := Pushed(me.queue, me.batch[0]))
    case Saving(_) => me.(stage := Resting(None))
    case _ => me
  }

  function DroppedBy(me: Worker): multiset<Task> {
    if me.stage.Flushing? && me.batch != [] then Dropped(me.queue, me.batch[0]) else multiset{}
  }

  function ShardNext(s: State, w: nat, k: nat, otherwise: Stage): State
    requires w < |s.workers| && k < |s.shards|
  {
    var me := s.workers[w];
    if s.shards[k] == [] then Put(s, w, me.(stage := otherwise))
    else Put(s, w, me.(stage := Running(s.shards[k][0]))).(shards := s.shards[k := s.shards[k][1..]])
  }

  function StealNext(s: State, w: nat, v: nat, contended: bool, otherwise: Stage): State
    requires w < |s.workers| && v < |s.workers| && v != w
  {
    var me, other := s.workers[w], s.workers[v];
    if contended || other.queue == [] then Put(s, w, me.(stage := otherwise))
    else Put(Put(s, v, other.(queue := other.queue[1..])), w, me.(stage := Running(other.queue[0])))
  }

  function GlobalNext(s: State, w: nat, contended: bool): State
    requires w < |s.workers|
  {
    var me, count := s.workers[w], |s.workers|;
    match me.stage
    case OwnShard => if w < |s.shards| then ShardNext(s, w, w, TryShard(0)) else Put(s, w, me.(stage := TryShard(0)))
    case TryShard(i) =>
      if i >= |s.shards| then Put(s, w, me.(stage := if count <= 1 then Resting(None) else TrySteal(0)))
      else if i == w then Put(s, w, me.(stage := TryShard(i + 1)))
      else ShardNext(s, w, i, TryShard(i + 1))
    case TrySteal(i) =>
      if i >= 2 * count then Put(s, w, me.(stage := Resting(None)))
      else if Victim(w, i, count) == w then Put(s, w, me.(stage := TrySteal(i + 1)))
      else StealNext(s, w, Victim(w, i, count), contended, TrySteal(i + 1))
    case _ => Put(s, w, LocalNext(me)).(dropped := s.dropped + DroppedBy(me))
  }

  function YieldNext(me: Worker): Worker
    requires me.stage.Running?
  {
    if me.batch == [] && me.queue == [] then me
    else
      var batch := me.batch + [me.stage.task];
      Worker(batch, me.queue, if |batch| >= BATCH_SIZE then Flushing(me.stage.task) else Saving(me.stage.task))
  }

  predicate MaySubmit(me: Worker) {
    me.stage.Running? || me.stage.Resting?
  }

  function Apply(s: State, a: Action): State {
    if a.SubmitGlobal? then
      if a.shard < |s.shards| then
        s.(shards := s.shards[a.shard := s.shards[a.shard] + [a.task]], submitted := s.submitted + multiset{a.task})
      else s
    else if a.w >= |s.workers| then s
    else
      var me := s.workers[a.w];
      match a
      case SubmitLocal(w, task) =>
        if MaySubmit(me) then
          Put(s, w, me.(queue := Pushed(me.queue, task)))
            .(submitted := s.submitted + multiset{task}, dropped := s.dropped + Dropped(me.queue, task))
        else s
      case StartPick(w) => if me.stage.Resting? then Put(s, w, me.(stage := Picking)) else s
      case Step(w, contended) => GlobalNext(s, w, contended)
      case Yield(w) => if me.stage.Running? then Put(s, w, YieldNext(me)) else s
      case End(w) =>
        if me.stage.Running? then
          Put(s, w, me.(stage := Resting(None))).(retired := s.retired + multiset{me.stage.task})
        else s
  }

  function RunFrom(s: State, actions: seq<Action>): State
    decreases |actions|
  {
    if actions == [] then s else RunFrom(Apply(s, actions[0]), actions[1..])
  }

  // ---- The batch stays in bounds ----

  predicate BatchInv(me: Worker) {
    match me.stage
    case Popping => |me.batch| <= BATCH_SIZE
    case Flushing(_) => |me.batch| <= BATCH_SIZE
    case OwnShard => me.batch == []
    case TryShard(_) => me.batch == []
    case TrySteal(_) => me.batch == []
    case _ => |me.batch| < BATCH_SIZE
  }

  predicate InBounds(s: State) {
    forall w | 0 <= w < |s.workers| :: BatchInv(s.workers[w])
  }

  lemma LocalKeepsBatch(me: Worker)
    requires BatchInv(me)
    ensures BatchInv(LocalNext(me))
  {
  }

  lemma PutKeepsBounds(s: State, w: nat, worker: Worker)
    requires InBounds(s) && w < |s.workers| && BatchInv(worker)
    ensures InBounds(Put(s, w, worker))
  {
  }

  lemma StepKeepsBounds(s: State, w: nat, contended: bool)
    requires InBounds(s) && w < |s.workers|
    ensures InBounds(GlobalNext(s, w, contended))
  {
    var me := s.workers[w];
    assert BatchInv(me);
    LocalKeepsBatch(me);
    if me.stage.TrySteal? {
      StealKeepsBounds(s, w, contended);
    } else {
      var me' := GlobalNext(s, w, contended).workers[w];
      assert BatchInv(me');
      PutKeepsBounds(s, w, me');
    }
  }

  lemma StealKeepsBounds(s: State, w: nat, contended: bool)
    requires InBounds(s) && w < |s.workers| && s.workers[w].stage.TrySteal?
    ensures InBounds(GlobalNext(s, w, contended))
  {
    assert BatchInv(s.workers[w]);
  }

  lemma ApplyKeepsBounds(s: State, a: Action)
    requires InBounds(s)
    ensures InBounds(Apply(s, a))
  {
    if !a.SubmitGlobal? && a.w < |s.workers| {
      assert BatchInv(s.workers[a.w]);
      if a.Step? {
        StepKeepsBounds(s, a.w, a.contended);
      } else {
        PutKeepsBounds(s, a.w, Apply(s, a).workers[a.w]);
      }
    }
  }

  // ---- Conservation ----

  function CopiesAt(me: Worker, x: Task): nat {
    Copies(me.batch, x) + Copies(me.queue, x) + if me.stage == Running(x) then 1 else 0
  }

  function AtWorker(x: Task): Worker -> int {
    (me: Worker) => CopiesAt(me, x)
  }

  function InShard(x: Task): seq<Task> -> int {
    (shard: seq<Task>) => Copies(shard, x)
  }

  // Where the copies of a task are.
  function Held(s: State, x: Task): int {
    Total(s.workers, AtWorker(x)) + Total(s.shards, InShard(x))
  }

  predicate Conserved(s: State, x: Task) {
    s.submitted[x] == s.retired[x] + s.dropped[x] + Held(s, x)
  }

  lemma PutHolds(s: State, w: nat, worker: Worker, x: Task)
    requires w < |s.workers|
    ensures Held(Put(s, w, worker), x) == Held(s, x) - CopiesAt(s.workers[w], x) + CopiesAt(worker, x)
  {
    TotalUpdate(s.workers, AtWorker(x), w, worker);
  }

  lemma TakeKeepsCopies(me: Worker, x: Task)
    requires me.batch != [] && !me.stage.Running?
    ensures CopiesAt(TakeFromBatch(me), x) == CopiesAt(me, x)
  {
    CopiesEnds(me.batch, x);
  }

  lemma PopKeepsCopies(me: Worker, x: Task)
    requires !me.stage.Running?
    ensures CopiesAt(PopNext(me), x) == CopiesAt(me, x)
  {
    if |me.batch| < BATCH_SIZE && me.queue != [] {
      CopiesEnds(me.queue, x);
      CopiesConcat(me.batch, [Last(me.queue)], x);
      CopiesOne(Last(me.queue), x);
    } else if me.batch != [] {
      TakeKeepsCopies(me, x);
    }
  }

  lemma PushKeepsCopies(queue: seq<Task>, y: Task, x: Task)
    ensures Copies(Pushed(queue, y), x) + Dropped(queue, y)[x] == Copies(queue, x) + if x == y then 1 else 0
  {
    CopiesConcat(queue, [y], x);
    CopiesOne(y, x);
  }

  lemma FlushKeepsCopies(me: Worker, x: Task)
    requires me.batch != [] && me.stage.Flushing?
    ensures CopiesAt(LocalNext(me), x) + DroppedBy(me)[x] == CopiesAt(me, x)
  {
    CopiesEnds(me.batch, x);
    PushKeepsCopies(me.queue, me.batch[0], x);
  }

  lemma LocalKeepsCopies(me: Worker, x: Task)
    ensures CopiesAt(LocalNext(me), x) + DroppedBy(me)[x] == CopiesAt(me, x)
  {
    if me.stage.Picking? && me.batch != [] {
      TakeKeepsCopies(me, x);
    } else if me.stage.Popping? {
      PopKeepsCopies(me, x);
    } else if me.stage.Flushing? && me.batch != [] {
      FlushKeepsCopies(me, x);
    }
  }

  lemma ShardStepConserves(s: State, w: nat, k: nat, otherwise: Stage, x: Task)
    requires w < |s.workers| && k < |s.shards| && !s.workers[w].stage.Running? && !otherwise.Running?
    ensures Held(ShardNext(s, w, k, otherwise), x) == Held(s, x)
  {
    PutHolds(s, w, ShardNext(s, w, k, otherwise).workers[w], x);
    if s.shards[k] != [] {
      TotalUpdate(s.shards, InShard(x), k, s.shards[k][1..]);
      CopiesEnds(s.shards[k], x);
    }
  }

  lemma StealStepConserves(s: State, w: nat, v: nat, contended: bool, otherwise: Stage, x: Task)
    requires w < |s.workers| && v < |s.workers| && v != w
    requires !s.workers[w].stage.Running? && !otherwise.Running?
    ensures Held(StealNext(s, w, v, contended, otherwise), x) == Held(s, x)
  {
    var me, other := s.workers[w], s.workers[v];
    if contended || other.queue == [] {
      PutHolds(s, w, me.(stage := otherwise), x);
    } else {
      var robbed := other.(queue := other.queue[1..]);
      PutHolds(s, v, robbed, x);
      PutHolds(Put(s, v, robbed), w, me.(stage := Running(other.queue[0])), x);
      CopiesEnds(other.queue, x);
    }
  }

  // A step that only moves the worker on.
  lemma MoveOnConserves(s: State, w: nat, stage: Stage, x: Task)
    requires w < |s.workers| && !s.workers[w].stage.Running? && !stage.Running?
    ensures Held(Put(s, w, s.workers[w].(stage := stage)), x) == Held(s, x)
  {
    PutHolds(s, w, s.workers[w].(stage := stage), x);
  }

  predicate IsGlobal(stage: Stage) {
    stage.OwnShard? || stage.TryShard? || stage.TrySteal?
  }

  lemma LookConserves(s: State, w: nat, contended: bool, x: Task)
    requires w < |s.workers| && (s.workers[w].stage.OwnShard? || s.workers[w].stage.TryShard?)
    ensures Held(GlobalNext(s, w, contended), x) == Held(s, x) && GlobalNext(s, w, contended).dropped == s.dropped
  {
    var me := s.workers[w];
    if me.stage.OwnShard? && w < |s.shards| {
      ShardStepConserves(s, w, w, TryShard(0), x);
    } else if me.stage.TryShard? && me.stage.next < |s.shards| && me.stage.next != w {
      ShardStepConserves(s, w, me.stage.next, TryShard(me.stage.next + 1), x);
    } else {
      MoveOnConserves(s, w, GlobalNext(s, w, contended).workers[w].stage, x);
    }
  }

  lemma VictimConserves(s: State, w: nat, v: nat, attempt: nat, contended: bool, x: Task)
    requires w < |s.workers| && v < |s.workers| && s.workers[w].stage == TrySteal(attempt)
    ensures Held(if v == w then Put(s, w, s.workers[w].(stage := TrySteal(attempt + 1)))
                 else StealNext(s, w, v, contended, TrySteal(attempt + 1)), x) == Held(s, x)
  {
    if v == w {
      MoveOnConserves(s, w, TrySteal(attempt + 1), x);
    } else {
      StealStepConserves(s, w, v, contended, TrySteal(attempt + 1), x);
    }
  }

  lemma TryStealConserves(s: State, w: nat, contended: bool, x: Task)
    requires w < |s.workers| && s.workers[w].stage.TrySteal?
    ensures Held(GlobalNext(s, w, contended), x) == Held(s, x) && GlobalNext(s, w, contended).dropped == s.dropped
  {
    var attempt, count := s.workers[w].stage.attempt, |s.workers|;
    if attempt >= 2 * count {
      MoveOnConserves(s, w, Resting(None), x);
    } else {
      VictimConserves(s, w, Victim(w, attempt, count), attempt, contended, x);
    }
  }

  lemma GlobalStepConserves(s: State, w: nat, contended: bool, x: Task)
    requires w < |s.workers| && IsGlobal(s.workers[w].stage)
    ensures Held(GlobalNext(s, w, contended), x) == Held(s, x) && GlobalNext(s, w, contended).dropped == s.dropped
  {
    if s.workers[w].stage.TrySteal? {
      TryStealConserves(s, w, contended, x);
    } else {
      LookConserves(s, w, contended, x);
    }
  }

  lemma StepConserves(s: State, w: nat, contended: bool, x: Task)
    requires w < |s.workers|
    ensures var s' := GlobalNext(s, w, contended); Held(s', x) + s'.dropped[x] == Held(s, x) + s.dropped[x]
  {
    var me := s.workers[w];
    if IsGlobal(me.stage) {
      GlobalStepConserves(s, w, contended, x);
    } else {
      LocalKeepsCopies(me, x);
      PutHolds(s, w, LocalNext(me), x);
      assert GlobalNext(s, w, contended) == Put(s, w, LocalNext(me)).(dropped := s.dropped + DroppedBy(me));
    }
  }

  lemma StepKeepsHistory(s: State, w: nat, contended: bool)
    requires w < |s.workers|
    ensures var s' := GlobalNext(s, w, contended); s'.submitted == s.submitted && s'.retired == s.retired
  {
  }

  lemma YieldKeepsCopies(me: Worker, x: Task)
    requires me.stage.Running?
    ensures CopiesAt(YieldNext(me), x) == CopiesAt(me, x)
  {
    CopiesConcat(me.batch, [me.stage.task], x);
    CopiesOne(me.stage.task, x);
  }

  lemma ApplyConserves(s: State, a: Action, x: Task)
    requires Conserved(s, x)
    ensures Conserved(Apply(s, a), x)
  {
    if a.SubmitGlobal? {
      if a.shard < |s.shards| {
        TotalUpdate(s.shards, InShard(x), a.shard, s.shards[a.shard] + [a.task]);
        CopiesConcat(s.shards[a.shard], [a.task], x);
        CopiesOne(a.task, x);
      }
    } else if a.w < |s.workers| {
      WorkerConserves(s, a, x);
    }
  }

  lemma SubmitConserves(s: State, w: nat, task: Task, x: Task)
    requires w < |s.workers| && Conserved(s, x)
    ensures Conserved(Apply(s, SubmitLocal(w, task)), x)
  {
    var me := s.workers[w];
    PutHolds(s, w, me.(queue := Pushed(me.queue, task)), x);
    PushKeepsCopies(me.queue, task, x);
  }

  lemma WorkerConserves(s: State, a: Action, x: Task)
    requires !a.SubmitGlobal? && a.w < |s.workers| && Conserved(s, x)
    ensures Conserved(Apply(s, a), x)
  {
    var me := s.workers[a.w];
    if a.Step? {
      StepConserves(s, a.w, a.contended, x);
      StepKeepsHistory(s, a.w, a.contended);
    } else if a.SubmitLocal? {
      SubmitConserves(s, a.w, a.task, x);
    } else if a.StartPick? && me.stage.Resting? {
      MoveOnConserves(s, a.w, Picking, x);
    } else if a.Yield? && me.stage.Running? {
      YieldKeepsCopies(me, x);
      PutHolds(s, a.w, YieldNext(me), x);
    } else if a.End? && me.stage.Running? {
      PutHolds(s, a.w, me.(stage := Resting(None)), x);
    }
  }

  lemma {:induction false} RunKeepsAll(s: State, actions: seq<Action>, x: Task)
    requires InBounds(s) && Conserved(s, x)
    ensures InBounds(RunFrom(s, actions)) && Conserved(RunFrom(s, actions), x)
    decreases |actions|
  {
    if actions != [] {
      ApplyKeepsBounds(s, actions[0]);
      ApplyConserves(s, actions[0], x);
      RunKeepsAll(Apply(s, actions[0]), actions[1..], x);
    }
  }

  lemma NothingAtStart(count: nat, x: Task)
    ensures Conserved(Start(count), x)
  {
    var s := Start(count);
    assert forall i | 0 <= i < count :: AtWorker(x)(s.workers[i]) == 0;
    assert forall i | 0 <= i < count :: InShard(x)(s.shards[i]) == 0;
    TotalZero(s.workers, AtWorker(x));
    TotalZero(s.shards, InShard(x));
  }

  /** In every interleaving no task is doubled, and none is lost but by a full deque: of each,
      the copies in batches, deques and shards and running are those submitted less those
      retired and those dropped. */
  lemma TasksConserved(count: nat, actions: seq<Action>, x: Task)
    ensures var s := RunFrom(Start(count), actions);
      s.submitted[x] == s.retired[x] + s.dropped[x] + Total(s.workers, AtWorker(x)) + Total(s.shards, InShard(x))
  {
    NothingAtStart(count, x);
    RunKeepsAll(Start(count), actions, x);
  }

  // The action pushes onto a deque of 1023 tasks.
  predicate FindsFull(s: State, a: Action) {
    && !a.SubmitGlobal? && a.w < |s.workers| && |s.workers[a.w].queue| >= ROOM
    && ((a.SubmitLocal? && MaySubmit(s.workers[a.w]))
        || (a.Step? && s.workers[a.w].stage.Flushing? && s.workers[a.w].batch != []))
  }

  lemma PushDrops(queue: seq<Task>, y: Task, dropped: multiset<Task>)
    ensures if |queue| >= ROOM then |dropped + Dropped(queue, y)| > |dropped| + ROOM && Pushed(queue, y) == []
      else dropped + Dropped(queue, y) == dropped
  {
    if |queue| >= ROOM {
      assert |multiset(queue + [y])| == |queue + [y]|;
    }
  }

  lemma SubmitDrops(s: State, w: nat, task: Task)
    requires w < |s.workers|
    ensures var a, s' := SubmitLocal(w, task), Apply(s, SubmitLocal(w, task));
      if FindsFull(s, a) then |s'.dropped| > |s.dropped| + ROOM && |s'.workers| == |s.workers| && s'.workers[w].queue == []
      else s'.dropped == s.dropped
  {
    PushDrops(s.workers[w].queue, task, s.dropped);
  }

  lemma StepDrops(s: State, w: nat, contended: bool)
    requires w < |s.workers|
    ensures var a, s' := Step(w, contended), GlobalNext(s, w, contended);
      if FindsFull(s, a) then |s'.dropped| > |s.dropped| + ROOM && |s'.workers| == |s.workers| && s'.workers[w].queue == []
      else s'.dropped == s.dropped
  {
    var me := s.workers[w];
    if me.stage.Flushing? && me.batch != [] {
      PushDrops(me.queue, me.batch[0], s.dropped);
    } else {
      assert s.dropped + DroppedBy(me) == s.dropped;
    }
  }

  // Tasks are dropped exactly when a push finds 1023 tasks in the deque, and then those and
  // the pushed one are.
  lemma DropsIffFull(s: State, a: Action)
    ensures !FindsFull(s, a) ==> Apply(s, a).dropped == s.dropped
    ensures FindsFull(s, a) ==>
      |Apply(s, a).dropped| > |s.dropped| + ROOM && a.w < |Apply(s, a).workers| && Apply(s, a).workers[a.w].queue == []
  {
    if !a.SubmitGlobal? && a.w < |s.workers| {
      if a.SubmitLocal? {
        SubmitDrops(s, a.w, a.task);
      } else if a.Step? {
        StepDrops(s, a.w, a.contended);
      }
    }
  }

  predicate EverFindsFull(s: State, actions: seq<Action>)
    decreases |actions|
  {
    actions != [] && (FindsFull(s, actions[0]) || EverFindsFull(Apply(s, actions[0]), actions[1..]))
  }

  lemma {:induction false} DropsIffEverFull(s: State, actions: seq<Action>)
    ensures var s' := RunFrom(s, actions);
      if EverFindsFull(s, actions) then |s'.dropped| > |s.dropped| + ROOM else s'.dropped == s.dropped
    decreases |actions|
  {
    if actions != [] {
      DropsIffFull(s, actions[0]);
      DropsIffEverFull(Apply(s, actions[0]), actions[1..]);
    }
  }

  /** A run drops tasks exactly when some push in it finds 1023 tasks in its deque, and then at
      least 1024 are dropped. */
  lemma DroppedIffEverFull(count: nat, actions: seq<Action>)
    ensures var dropped := RunFrom(Start(count), actions).dropped;
      if EverFindsFull(Start(count), actions) then |dropped| > ROOM else dropped == multiset{}
  {
    DropsIffEverFull(Start(count), actions);
  }

  /** Whenever a task runs its worker's batch has room for it, so that a yield never writes
      past the eighth slot. */
  lemma BatchHasRoom(count: nat, actions: seq<Action>, w: nat)
    requires w < |RunFrom(Start(count), actions).workers|
    ensures var me := RunFrom(Start(count), actions).workers[w];
      |me.batch| <= BATCH_SIZE && (me.stage.Running? ==> |me.batch| <= 7)
  {
    NothingAtStart(count, 0);
    RunKeepsAll(Start(count), actions, 0);
    assert BatchInv(RunFrom(Start(count), actions).workers[w]);
  }

  // ---- A task that yields ----

  // The worker has queued the task and is still on its stack.
  predicate OnStack(me: Worker, x: Task) {
    me.stage == Flushing(x) || me.stage == Saving(x)
  }

  // The task is the last thing in its worker's batch, or after the flush in its deque.
  predicate YieldedLast(me: Worker) {
    me.stage.Flushing? || me.stage.Saving? ==>
      if me.batch != [] then Last(me.batch) == me.stage.task
      else me.queue != [] ==> Last(me.queue) == me.stage.task
  }

  predicate YieldsOk(s: State) {
    forall w | 0 <= w < |s.workers| :: YieldedLast(s.workers[w])
  }

  lemma LocalKeepsYield(me: Worker)
    requires YieldedLast(me)
    ensures YieldedLast(LocalNext(me))
  {
  }

  lemma PutKeepsYields(s: State, w: nat, worker: Worker)
    requires YieldsOk(s) && w < |s.workers| && YieldedLast(worker)
    ensures YieldsOk(Put(s, w, worker))
  {
  }

  lemma StealKeepsYields(s: State, w: nat, v: nat, contended: bool, otherwise: Stage)
    requires YieldsOk(s) && w < |s.workers| && v < |s.workers| && v != w && !otherwise.Flushing? && !otherwise.Saving?
    ensures YieldsOk(StealNext(s, w, v, contended, otherwise))
  {
    var other := s.workers[v];
    assert YieldedLast(other);
    if other.queue != [] {
      var robbed := other.(queue := other.queue[1..]);
      PutKeepsYields(s, v, robbed);
      PutKeepsYields(Put(s, v, robbed), w, s.workers[w].(stage := Running(other.queue[0])));
    }
    PutKeepsYields(s, w, s.workers[w].(stage := otherwise));
  }

  lemma StepKeepsYields(s: State, w: nat, contended: bool)
    requires YieldsOk(s) && w < |s.workers|
    ensures YieldsOk(GlobalNext(s, w, contended))
  {
    var me, s', count := s.workers[w], GlobalNext(s, w, contended), |s.workers|;
    assert YieldedLast(me);
    if me.stage.TrySteal? && me.stage.attempt < 2 * count && Victim(w, me.stage.attempt, count) != w {
      StealKeepsYields(s, w, Victim(w, me.stage.attempt, count), contended, TrySteal(me.stage.attempt + 1));
    } else {
      LocalKeepsYield(me);
      PutKeepsYields(s, w, s'.workers[w]);
    }
  }

  lemma ApplyKeepsYields(s: State, a: Action)
    requires YieldsOk(s)
    ensures YieldsOk(Apply(s, a))
  {
    if !a.SubmitGlobal? && a.w < |s.workers| {
      assert YieldedLast(s.workers[a.w]);
      if a.Step? {
        StepKeepsYields(s, a.w, a.contended);
      } else {
        PutKeepsYields(s, a.w, Apply(s, a).workers[a.w]);
      }
    }
  }

  lemma {:induction false} RunKeepsYields(s: State, actions: seq<Action>)
    requires YieldsOk(s)
    ensures YieldsOk(RunFrom(s, actions))
    decreases |actions|
  {
    if actions != [] {
      ApplyKeepsYields(s, actions[0]);
      RunKeepsYields(Apply(s, actions[0]), actions[1..]);
    }
  }

  // The copies of a task that are not with worker w.
  function Elsewhere(s: State, w: nat, x: Task): int
    requires w < |s.workers|
  {
    Held(s, x) - CopiesAt(s.workers[w], x)
  }

  lemma ElsewhereCounts(s: State, w: nat, x: Task)
    requires w < |s.workers|
    ensures Elsewhere(s, w, x) >= 0
  {
    var nobody := Worker([], [], Resting(None));
    PutHolds(s, w, nobody, x);
    TotalZero(Put(s, w, nobody).workers, AtWorker(x));
    TotalZero(s.shards, InShard(x));
  }

  /** A yield queues its task before it leaves the task's stack. In every run, while a worker is
      still on the stack of a task that was submitted once and is not done with, the task is in
      another worker's hands exactly when the worker's own batch and deque are both empty: never
      after a yield that left the batch unflushed, and after a flush once thieves have taken
      everything in the deque. */
  lemma YieldedIsElsewhereIff(count: nat, actions: seq<Action>, w: nat, x: Task)
    requires var s := RunFrom(Start(count), actions);
      && w < |s.workers| && OnStack(s.workers[w], x)
      && s.submitted[x] == 1 && s.retired[x] == 0 && s.dropped[x] == 0
    ensures var s := RunFrom(Start(count), actions);
      Elsewhere(s, w, x) == if s.workers[w].batch == [] && s.workers[w].queue == [] then 1 else 0
  {
    var s := RunFrom(Start(count), actions);
    NothingAtStart(count, x);
    RunKeepsAll(Start(count), actions, x);
    RunKeepsYields(Start(count), actions);
    assert YieldedLast(s.workers[w]);
    ElsewhereCounts(s, w, x);
    var me := s.workers[w];
    if me.batch != [] {
      CopiesEnds(me.batch, x);
    } else if me.queue != [] {
      CopiesEnds(me.queue, x);
    }
  }

  // ---- It happens ----

  lemma FirstStep(s: State, a: Action, rest: seq<Action>)
    ensures RunFrom(s, [a] + rest) == RunFrom(Apply(s, a), rest)
  {
    assert ([a] + rest)[1..] == rest;
  }

  // Two workers, and nothing in the global queue.
  predicate Two(s: State, first: Worker, second: Worker) {
    s.workers == [first, second] && s.shards == [[], []]
  }

  const Thief := Worker([], [], Resting(None))

  // Worker 1 runs the task that worker 0 has not saved.
  predicate ResumedUnsaved(s: State, x: Task) {
    |s.workers| == 2 && s.workers[0].stage == Saving(x) && s.workers[1].stage == Running(x)
  }

  // Worker 0 on its way to a yield that fills its batch: it gets eight tasks, takes them into
  // its batch, runs one and yields.
  predicate OnTheWay(me: Worker) {
    match me.stage
    case Resting(_) => me.batch == [] && |me.queue| <= BATCH_SIZE
    case Picking => me.batch == [] && |me.queue| == BATCH_SIZE
    case Popping => |me.batch| + |me.queue| == BATCH_SIZE
    case Running(_) => |me.batch| == BATCH_SIZE - 1 && me.queue == []
    case Flushing(x) => |me.batch| + |me.queue| == BATCH_SIZE && YieldedLast(me)
    case Saving(x) => me.batch == [] && |me.queue| == BATCH_SIZE && Last(me.queue) == x
    case _ => false
  }

  function OwnAction(me: Worker): Action {
    match me.stage
    case Resting(_) => if |me.queue| < BATCH_SIZE then SubmitLocal(0, |me.queue|) else StartPick(0)
    case Running(_) => Yield(0)
    case _ => Step(0, false)
  }

  function StillToDo(me: Worker): int {
    match me.stage
    case Resting(_) => 60 - |me.queue|
    case Picking => 50
    case Popping => 30 + |me.queue|
    case Running(_) => 20
    case Flushing(_) => 10 + |me.batch|
    case _ => 0
  }

  lemma OwnStep(s: State, me: Worker)
    requires Two(s, me, Thief) && OnTheWay(me) && !me.stage.Saving?
    ensures var s' := Apply(s, OwnAction(me));
      && |s'.workers| == 2 && Two(s', s'.workers[0], Thief)
      && OnTheWay(s'.workers[0]) && 0 <= StillToDo(s'.workers[0]) < StillToDo(me)
  {
  }

  // Worker 1 looks for a task; the first worker's deque is the only place where there are any.
  function AfterLook(stage: Stage): Stage {
    match stage
    case Resting(_) => Picking
    case Picking => Popping
    case Popping => OwnShard
    case OwnShard => TryShard(0)
    case TryShard(i) => if i < 2 then TryShard(i + 1) else TrySteal(0)
    case _ => Resting(None)
  }

  function LooksLeft(stage: Stage): nat {
    match stage
    case Running(_) => 9
    case Resting(_) => 8
    case Picking => 7
    case Popping => 6
    case OwnShard => 5
    case TryShard(i) => if i < 4 then 4 - i else 0
    case _ => 1
  }

  predicate Looking(stage: Stage) {
    match stage
    case TryShard(i) => i <= 2
    case TrySteal(i) => i == 0
    case Flushing(_) => false
    case Saving(_) => false
    case _ => true
  }

  function ThiefAction(stage: Stage): Action {
    match stage
    case Running(_) => End(1)
    case Resting(_) => StartPick(1)
    case _ => Step(1, false)
  }

  lemma ThiefLooks(s: State, first: Worker, stage: Stage)
    requires Two(s, first, Worker([], [], stage)) && Looking(stage) && stage != TrySteal(0)
    ensures Two(Apply(s, ThiefAction(stage)), first, Worker([], [], AfterLook(stage))) && Looking(AfterLook(stage))
  {
  }

  lemma ThiefSteals(s: State, first: Worker)
    requires Two(s, first, Worker([], [], TrySteal(0))) && first.queue != []
    ensures Two(Apply(s, Step(1, false)), first.(queue := first.queue[1..]), Worker([], [], Running(first.queue[0])))
  {
    assert Victim(1, 0, 2) == 0;
  }

  lemma {:induction false} ThievesGoOn(s: State, first: Worker, stage: Stage, x: Task) returns (run: seq<Action>)
    requires Two(s, first, Worker([], [], stage)) && Looking(stage)
    requires first.stage == Saving(x) && first.queue != [] && Last(first.queue) == x
    ensures ResumedUnsaved(RunFrom(s, run), x)
    decreases |first.queue|, LooksLeft(stage)
  {
    var s', rest := Apply(s, ThiefAction(stage)), [];
    if stage != TrySteal(0) {
      ThiefLooks(s, first, stage);
      rest := ThievesGoOn(s', first, AfterLook(stage), x);
    } else {
      ThiefSteals(s, first);
      if |first.queue| > 1 {
        rest := ThievesGoOn(s', first.(queue := first.queue[1..]), Running(first.queue[0]), x);
      }
    }
    run := [ThiefAction(stage)] + rest;
    FirstStep(s, ThiefAction(stage), rest);
  }

  lemma {:induction false} OwnerGoesOn(s: State, me: Worker) returns (run: seq<Action>, x: Task)
    requires Two(s, me, Thief) && OnTheWay(me)
    ensures ResumedUnsaved(RunFrom(s, run), x)
    decreases StillToDo(me)
  {
    if me.stage.Saving? {
      x := me.stage.task;
      run := ThievesGoOn(s, me, Resting(None), x);
    } else {
      OwnStep(s, me);
      var s' := Apply(s, OwnAction(me));
      var rest;
      rest, x := OwnerGoesOn(s', s'.workers[0]);
      run := [OwnAction(me)] + rest;
      FirstStep(s, OwnAction(me), rest);
    }
  }

  /** It happens: a run in which a worker fills its batch with a yield, and a thief resumes the
      yielded task while the worker has still to save the task's context. */
  lemma ResumedUnsavedHappens() returns (run: seq<Action>, x: Task)
    ensures ResumedUnsaved(RunFrom(Start(2), run), x)
  {
    assert Start(2).workers == [Thief, Thief] && Start(2).shards == [[], []];
    run, x := OwnerGoesOn(Start(2), Thief);
  }

  // ---- PickTask misses nothing ----

  /** Every other worker is a victim of the first round of steals. */
  lemma EveryoneIsAVictim(w: nat, v: nat, count: nat) returns (attempt: nat)
    requires w < count && v < count
    ensures attempt < count && Victim(w, attempt, count) == v
  {
    var first := (w + 1) % count;
    attempt := if first <= v then v - first else v + count - first;
    assert first + attempt == v || first + attempt == v + count;
    WrapOnce(v, count);
  }

  /** The steal loop goes up from the next worker and round to the worker itself, and then the same
      way once more. */
  lemma VictimsInOrder(w: nat, attempt: nat, count: nat)
    requires w < count && attempt < count
    ensures Victim(w, attempt, count) == if w + 1 + attempt < count then w + 1 + attempt else w + 1 + attempt - count
    ensures Victim(w, attempt + count, count) == Victim(w, attempt, count)
  {
    WrapOnce(if w + 1 < count then w + 1 else 0, count);
    var x := if w + 1 + attempt < count then w + 1 + attempt else w + 1 + attempt - count;
    WrapOnce(x, count);
    WrapTwice(x, count);
  }

  // A worker that comes before the i-th victim, going up from w + 1 and round, is an earlier one.
  lemma TriedBefore(w: nat, u: nat, i: nat, count: nat) returns (j: nat)
    requires w < count && u < count && i < count
    requires var v := Victim(w, i, count); w < u < v || v <= w < u || u < v <= w
    ensures j < i && Victim(w, j, count) == u
  {
    VictimsInOrder(w, i, count);
    j := if w < u then u - w - 1 else u + count - w - 1;
    VictimsInOrder(w, j, count);
  }

  lemma WrapTwice(v: nat, count: nat)
    requires v < count
    ensures (v + count + count) % count == v
  {
    assert v + count + count == 2 * count + v;
  }

  lemma WrapOnce(v: nat, count: nat)
    requires v < count
    ensures v % count == v && (v + count) % count == v
  {
  }

  // Nothing is pushed to a deque or a shard, and worker w loses no race and is left to pick.
  predicate Calm(s: State, a: Action, w: nat) {
    && !a.SubmitGlobal? && !a.SubmitLocal?
    && (a.Step? && a.w < |s.workers| ==> !s.workers[a.w].stage.Flushing?)
    && (a.w == w ==> a.Step? && !a.contended)
  }

  predicate CalmRun(s: State, actions: seq<Action>, w: nat)
    decreases |actions|
  {
    actions == [] || (Calm(s, actions[0], w) && CalmRun(Apply(s, actions[0]), actions[1..], w))
  }

  predicate ShardsEmpty(s: State, upTo: nat) {
    forall k | 0 <= k < upTo && k < |s.shards| :: s.shards[k] == []
  }

  predicate VictimsEmpty(s: State, w: nat, upTo: nat)
    requires w < |s.workers|
  {
    forall i: nat | i < upTo && Victim(w, i, |s.workers|) != w :: s.workers[Victim(w, i, |s.workers|)].queue == []
  }

  // What the picking worker has found empty so far.
  predicate Searched(s: State, w: nat)
    requires w < |s.workers|
  {
    var me := s.workers[w];
    match me.stage
    case Picking => true
    case Popping => true
    case OwnShard => me.batch == [] && me.queue == []
    case TryShard(i) => me.batch == [] && me.queue == [] && ShardsEmpty(s, i) && (w < |s.shards| ==> s.shards[w] == [])
    case TrySteal(i) =>
      me.batch == [] && me.queue == [] && ShardsEmpty(s, |s.shards|) && VictimsEmpty(s, w, i) && |s.workers| > 1
    case Resting(None) =>
      me.batch == [] && me.queue == [] && ShardsEmpty(s, |s.shards|) && (|s.workers| > 1 ==> VictimsEmpty(s, w, 2 * |s.workers|))
    case Resting(Some(_)) => false
    case Running(_) => true
    case Flushing(_) => false
    case Saving(_) => false
  }

  // In a calm step deques and shards only lose tasks.
  predicate OnlyLoses(s: State, s': State) {
    && |s'.workers| == |s.workers| && |s'.shards| == |s.shards|
    && (forall v | 0 <= v < |s.workers| && s.workers[v].queue == [] :: s'.workers[v].queue == [])
    && (forall k | 0 <= k < |s.shards| && s.shards[k] == [] :: s'.shards[k] == [])
  }

  // The step of worker v changes its own stage and batch only, and deques and shards only lose.
  predicate StepLoses(s: State, s': State, v: nat) {
    && OnlyLoses(s, s')
    && forall w | 0 <= w < |s.workers| && w != v ::
      s.workers[w].stage == s'.workers[w].stage && s.workers[w].batch == s'.workers[w].batch
  }

  lemma StealLoses(s: State, v: nat, contended: bool)
    requires v < |s.workers| && s.workers[v].stage.TrySteal?
    ensures StepLoses(s, GlobalNext(s, v, contended), v)
  {
  }

  lemma LocalLoses(me: Worker)
    requires !me.stage.Flushing?
    ensures me.queue == [] ==> LocalNext(me).queue == []
  {
  }

  lemma StepOnlyLoses(s: State, v: nat, contended: bool)
    requires v < |s.workers| && !s.workers[v].stage.Flushing?
    ensures StepLoses(s, GlobalNext(s, v, contended), v)
  {
    if s.workers[v].stage.TrySteal? {
      StealLoses(s, v, contended);
    } else {
      LocalLoses(s.workers[v]);
    }
  }

  lemma CalmOnlyLoses(s: State, a: Action, w: nat)
    requires Calm(s, a, w)
    ensures OnlyLoses(s, Apply(s, a))
    ensures a.w != w && w < |s.workers| ==>
      Apply(s, a).workers[w].stage == s.workers[w].stage && Apply(s, a).workers[w].batch == s.workers[w].batch
  {
    if a.Step? && a.w < |s.workers| {
      StepOnlyLoses(s, a.w, a.contended);
    }
  }

  lemma SearchedByOthers(s: State, a: Action, w: nat)
    requires w < |s.workers| && Searched(s, w) && Calm(s, a, w) && a.w != w
    ensures w < |Apply(s, a).workers| && Searched(Apply(s, a), w)
  {
    CalmOnlyLoses(s, a, w);
  }

  lemma StealSearched(s: State, w: nat)
    requires w < |s.workers| && Searched(s, w) && s.workers[w].stage.TrySteal?
    ensures |GlobalNext(s, w, false).workers| == |s.workers| && Searched(GlobalNext(s, w, false), w)
  {
    var s', i, count := GlobalNext(s, w, false), s.workers[w].stage.attempt, |s.workers|;
    if i < 2 * count && s'.workers[w].stage.TrySteal? {
      forall j: nat | j < i + 1 && Victim(w, j, count) != w ensures s'.workers[Victim(w, j, count)].queue == [] {
        assert j < i || j == i;
      }
    }
  }

  lemma SearchedByOwn(s: State, w: nat)
    requires w < |s.workers| && Searched(s, w) && !s.workers[w].stage.Resting? && !s.workers[w].stage.Running?
    ensures |GlobalNext(s, w, false).workers| == |s.workers| && Searched(GlobalNext(s, w, false), w)
  {
    if s.workers[w].stage.TrySteal? {
      StealSearched(s, w);
    }
  }

  lemma {:induction false} RunKeepsSearched(s: State, actions: seq<Action>, w: nat)
    requires w < |s.workers| && Searched(s, w) && CalmRun(s, actions, w)
    ensures |RunFrom(s, actions).workers| == |s.workers| && Searched(RunFrom(s, actions), w)
    decreases |actions|
  {
    if actions != [] {
      var a := actions[0];
      CalmOnlyLoses(s, a, w);
      if a.w != w {
        SearchedByOthers(s, a, w);
      } else if !s.workers[w].stage.Resting? && !s.workers[w].stage.Running? {
        SearchedByOwn(s, w);
      } else {
        assert s.workers[w := s.workers[w]] == s.workers;
        assert Apply(s, a) == s;
      }
      RunKeepsSearched(Apply(s, a), actions[1..], w);
    }
  }

  /** PickTask returns null only when the worker's own batch and deque, every shard and every
      other worker's deque are empty, as long as nothing is pushed meanwhile and the worker
      loses no race for a steal, whatever else the other workers do. */
  lemma PickMissesNothing(s: State, actions: seq<Action>, w: nat)
    requires w < |s.workers| && s.workers[w].stage == Picking && CalmRun(s, actions, w)
    ensures var s' := RunFrom(s, actions);
      |s'.workers| == |s.workers| &&
      (s'.workers[w].stage == Resting(None) ==>
        && s'.workers[w].batch == [] && (forall k | 0 <= k < |s'.shards| :: s'.shards[k] == [])
        && forall v | 0 <= v < |s'.workers| :: s'.workers[v].queue == [])
  {
    RunKeepsSearched(s, actions, w);
    var s' := RunFrom(s, actions);
    if s'.workers[w].stage == Resting(None) {
      forall v: nat | v < |s'.workers| ensures s'.workers[v].queue == [] {
        if v != w {
          var i := EveryoneIsAVictim(w, v, |s'.workers|);
        }
      }
    }
  }

  // ---- Calls that nobody disturbs ----

  // What a worker's own steps do to it, as long as none of them goes beyond its batch and deque.
  function LocalSteps(me: Worker, n: nat): Worker
    decreases n
  {
    if n == 0 then me else LocalSteps(LocalNext(me), n - 1)
  }

  lemma {:induction false} LocalStepsSum(me: Worker, m: nat, n: nat)
    ensures LocalSteps(me, m + n) == LocalSteps(LocalSteps(me, m), n)
    decreases m
  {
    if m > 0 {
      LocalStepsSum(LocalNext(me), m - 1, n);
    }
  }

  lemma LocalStepsAreSteps(s: State, w: nat, contended: bool)
    requires w < |s.workers| && !IsGlobal(s.workers[w].stage)
    ensures GlobalNext(s, w, contended).workers == s.workers[w := LocalNext(s.workers[w])]
    ensures GlobalNext(s, w, contended).shards == s.shards
  {
  }

  // The last k tasks of a queue, last first.
  function Reversed(q: seq<Task>, k: nat): (r: seq<Task>)
    requires k <= |q|
    ensures |r| == k && forall i | 0 <= i < k :: r[i] == q[|q| - 1 - i]
  {
    seq(k, i requires 0 <= i < k => q[|q| - 1 - i])
  }

  lemma {:induction false} PopsAlone(q: seq<Task>, done: nat, n: nat)
    requires done + n <= |q| && done + n <= 8
    ensures LocalSteps(Worker(Reversed(q, done), q[..|q| - done], Popping), n) ==
      Worker(Reversed(q, done + n), q[..|q| - (done + n)], Popping)
    decreases n
  {
    if n > 0 {
      assert Reversed(q, done) + [q[|q| - 1 - done]] == Reversed(q, done + 1);
      assert q[..|q| - done][..|q| - done - 1] == q[..|q| - (done + 1)];
      PopsAlone(q, done + 1, n - 1);
    }
  }

  // The task moved last is taken.
  lemma TakesLastMoved(q: seq<Task>, k: nat)
    requires 0 < k <= |q| && (k == 8 || k == |q|) && k <= 8
    ensures LocalNext(Worker(Reversed(q, k), q[..|q| - k], Popping)) ==
      Worker(Reversed(q, k - 1), q[..|q| - k], Running(q[|q| - k]))
  {
    assert Reversed(q, k)[..k - 1] == Reversed(q, k - 1);
  }

  lemma PickFromDeque(q: seq<Task>, k: nat)
    requires q != [] && k == if |q| < 8 then |q| else 8
    ensures LocalSteps(Worker([], q, Picking), k + 2) == Worker(Reversed(q, k - 1), q[..|q| - k], Running(q[|q| - k]))
  {
    var popping := Worker(Reversed(q, 0), q[..|q| - 0], Popping);
    assert popping == LocalNext(Worker([], q, Picking));
    PopsAlone(q, 0, k);
    TakesLastMoved(q, k);
    LocalStepsSum(popping, k, 1);
    OneLocalStep(Worker([], q, Picking), k + 1);
    OneLocalStep(LocalSteps(popping, k), 0);
  }

  lemma OneLocalStep(me: Worker, n: nat)
    ensures LocalSteps(me, n + 1) == LocalSteps(LocalNext(me), n)
    ensures LocalSteps(me, 0) == me
  {
  }

  /** What a pick does with the worker's own tasks when no thief is at its deque: it takes the last of
      the batch; with an empty batch it moves up to eight tasks from the end of the deque, takes the
      one that it moved last and keeps the others, the end of the deque first; with nothing of its own
      it goes on to the global queue. */
  lemma PickAlone(me: Worker)
    requires me.stage == Picking
    ensures me.batch != [] ==>
      LocalNext(me) == Worker(me.batch[..|me.batch| - 1], me.queue, Running(me.batch[|me.batch| - 1]))
    ensures me.batch == [] && me.queue != [] ==>
      var q := me.queue; var k := if |q| < 8 then |q| else 8;
      LocalSteps(me, k + 2) == Worker(Reversed(q, k - 1), q[..|q| - k], Running(q[|q| - k]))
    ensures me.batch == [] && me.queue == [] ==> LocalNext(LocalNext(me)) == Worker([], [], OwnShard)
  {
    if me.batch == [] && me.queue != [] {
      assert me == Worker([], me.queue, Picking);
      PickFromDeque(me.queue, if |me.queue| < 8 then |me.queue| else 8);
    }
  }

  lemma {:induction false} FlushAlone(batch: seq<Task>, queue: seq<Task>, x: Task)
    requires |queue| + |batch| <= 1023
    ensures LocalSteps(Worker(batch, queue, Flushing(x)), |batch|) == Worker([], queue + batch, Flushing(x))
    decreases |batch|
  {
    if batch == [] {
      assert queue + batch == queue;
    } else {
      FlushAlone(batch[1..], queue + [batch[0]], x);
      assert queue + [batch[0]] + batch[1..] == queue + batch;
    }
  }

  /** What a yield does: nothing when batch and deque are empty; otherwise the task joins the batch, and
      if it is the eighth all eight go to the deque, in order. */
  lemma YieldAlone(me: Worker, x: Task)
    requires me.stage == Running(x) && |me.batch| <= 7
    ensures me.batch == [] && me.queue == [] ==> YieldNext(me) == me
    ensures (me.batch != [] || me.queue != []) && |me.batch| < 7 ==>
      LocalNext(YieldNext(me)) == Worker(me.batch + [x], me.queue, Resting(None))
    ensures |me.batch| == 7 && |me.queue| + 8 <= 1023 ==>
      LocalSteps(YieldNext(me), 10) == Worker([], me.queue + (me.batch + [x]), Resting(None))
  {
    if |me.batch| == 7 && |me.queue| + 8 <= 1023 {
      var batch := me.batch + [x];
      FlushAlone(batch, me.queue, x);
      var flushed := Worker([], me.queue + batch, Flushing(x));
      LocalStepsSum(YieldNext(me), 8, 2);
      OneLocalStep(flushed, 1);
      OneLocalStep(LocalNext(flushed), 0);
    }
  }

  /** What a pick takes from elsewhere is the first task of its place: of the worker's own shard, of
      the shard that it tries, or of the deque of the worker that it tries. */
  lemma TakesTheFirst(s: State, w: nat)
    requires w < |s.workers|
    ensures var me, s' := s.workers[w], GlobalNext(s, w, false);
      && (me.stage.OwnShard? && w < |s.shards| && s.shards[w] != [] ==>
        s'.workers == s.workers[w := me.(stage := Running(s.shards[w][0]))] && s'.shards == s.shards[w := s.shards[w][1..]])
      && (me.stage.TryShard? && me.stage.next < |s.shards| && me.stage.next != w && s.shards[me.stage.next] != [] ==>
        var k := me.stage.next;
        s'.workers == s.workers[w := me.(stage := Running(s.shards[k][0]))] && s'.shards == s.shards[k := s.shards[k][1..]])
  {
  }

  lemma StealsTheFirst(s: State, w: nat, i: nat)
    requires w < |s.workers| && s.workers[w].stage == TrySteal(i) && i < 2 * |s.workers|
    requires var v := Victim(w, i, |s.workers|); v != w && s.workers[v].queue != []
    ensures var v, me := Victim(w, i, |s.workers|), s.workers[w];
      var other := s.workers[v];
      GlobalNext(s, w, false).workers ==
        s.workers[v := other.(queue := other.queue[1..])][w := me.(stage := Running(other.queue[0]))]
  {
  }

  /** A worker that loses every race for a steal tries every other worker twice before it gives up. */
  lemma GivesUpAfterTwoRounds(s: State, w: nat, i: nat)
    requires w < |s.workers| && s.workers[w].stage == TrySteal(i)
    ensures GlobalNext(s, w, true) ==
      Put(s, w, s.workers[w].(stage := if i < |s.workers| + |s.workers| then TrySteal(i + 1) else Resting(None)))
  {
    assert s.dropped + multiset{} == s.dropped;
  }
}
