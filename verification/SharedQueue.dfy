/**
 The global queue: one FIFO shard per worker, pushes dealt out in turn, and a counter that
 makes Empty() one load. Any number of callers push and pop at once; drawing a shard, pushing
 to a shard, popping from a shard and updating the counter are one step each. A push that
 draws an index outside the shards, which `RoundRobin` says when, is not modelled further.
 `pushed` and `popped` are history.
 */
module SharedQueue {
  import opened Options
  import opened RoundRobin
  import opened Sums

  type TaskId = nat

  datatype Stage =
    | Idle(last: Option<TaskId>)            // what the caller's last Pop returned
    | Placing(task: TaskId, shard: nat)     // Push: shard drawn
    | Counting                              // Push: in the shard, not yet counted
    | OwnFirst(worker: int)                 // Pop: about to try its own shard
    | Sweeping(worker: int, next: nat)      // Pop: about to try this shard
    | Taken(task: TaskId)                   // Pop: out of the shard, still counted

  datatype State = State(
    shards: seq<seq<TaskId>>, total: int, draws: nat, stages: seq<Stage>,
    pushed: seq<seq<TaskId>>, popped: seq<seq<TaskId>>)

  datatype Action =
    | BeginPush(caller: nat, task: TaskId)
    | BeginPop(caller: nat, worker: int)
    | Step(caller: nat)

  function Repeat<T>(n: nat, x: T): (r: seq<T>)
    ensures |r| == n && forall i | 0 <= i < n :: r[i] == x
  {
    if n == 0 then [] else [x] + Repeat(n - 1, x)
  }

  function Start(workers: nat, callers: nat): State {
    State(Repeat(workers, []), 0, 0, Repeat(callers, Idle(None)), Repeat(workers, []), Repeat(workers, []))
  }

  // ---- One step ----

  function At(s: State, c: nat, stage: Stage): State
    requires c < |s.stages|
  {
    s.(stages := s.stages[c := stage])
  }

  // Pop the shard if it has anything; otherwise go on.
  function TryShard(s: State, c: nat, k: nat, otherwise: Stage): State
    requires c < |s.stages| && k < |s.shards| == |s.popped|
  {
    if s.shards[k] == [] then At(s, c, otherwise)
    else
      var task := s.shards[k][0];
      At(s, c, Taken(task)).(shards := s.shards[k := s.shards[k][1..]], popped := s.popped[k := s.popped[k] + [task]])
  }

  function Next(s: State, c: nat): State
    requires Shaped(s) && c < |s.stages|
  {
    match s.stages[c]
    case Idle(_) => s
    case Placing(task, k) =>
      At(s, c, Counting).(shards := s.shards[k := s.shards[k] + [task]], pushed := s.pushed[k := s.pushed[k] + [task]])
    case Counting => At(s, c, Idle(None)).(total := s.total + 1)
    case OwnFirst(w) =>
      if 0 <= w < |s.shards| then TryShard(s, c, w, Sweeping(w, 0)) else At(s, c, Sweeping(w, 0))
    case Sweeping(w, i) =>
      if i >= |s.shards| then At(s, c, Idle(None))
      else if i == w then At(s, c, Sweeping(w, i + 1))
      else TryShard(s, c, i, Sweeping(w, i + 1))
    case Taken(task) => At(s, c, Idle(Some(task))).(total := s.total - 1)
  }

  function Apply(s: State, a: Action): State
    requires Shaped(s)
  {
    if a.caller >= |s.stages| then s
    else if a.Step? then Next(s, a.caller)
    else if !s.stages[a.caller].Idle? then s
    else if a.BeginPop? then At(s, a.caller, OwnFirst(a.worker))
    else if !Usable(s.draws, |s.shards|) then s
    else At(s, a.caller, Placing(a.task, Assigned(s.draws, |s.shards|))).(draws := s.draws + 1)
  }

  function RunFrom(s: State, actions: seq<Action>): State
    requires Shaped(s)
    decreases |actions|
  {
    if actions == [] then s
    else
      ApplyKeepsShape(s, actions[0]);
      RunFrom(Apply(s, actions[0]), actions[1..])
  }

  // ---- The invariant ----

  predicate Shaped(s: State) {
    && 0 < |s.shards| == |s.pushed| == |s.popped|
    && forall c | 0 <= c < |s.stages| && s.stages[c].Placing? :: s.stages[c].shard < |s.shards|
  }

  function Size(q: seq<TaskId>): int { |q| }
  function IsCounting(stage: Stage): int { if stage.Counting? then 1 else 0 }
  function IsTaken(stage: Stage): int { if stage.Taken? then 1 else 0 }

  ghost predicate CountInv(s: State) {
    s.total == Total(s.shards, Size) - Total(s.stages, IsCounting) + Total(s.stages, IsTaken)
  }

  predicate FifoInv(s: State)
    requires Shaped(s)
  {
    forall k | 0 <= k < |s.shards| :: s.pushed[k] == s.popped[k] + s.shards[k]
  }

  lemma ApplyKeepsShape(s: State, a: Action)
    requires Shaped(s)
    ensures Shaped(Apply(s, a)) && |Apply(s, a).shards| == |s.shards| && |Apply(s, a).stages| == |s.stages|
  {
  }

  // What the stage owes the counter.
  function Owed(stage: Stage): int {
    IsCounting(stage) - IsTaken(stage)
  }

  lemma AtCounts(s: State, c: nat, stage: Stage)
    requires c < |s.stages|
    ensures var stages := At(s, c, stage).stages;
      Total(stages, IsCounting) - Total(stages, IsTaken) ==
        Total(s.stages, IsCounting) - Total(s.stages, IsTaken) + Owed(stage) - Owed(s.stages[c])
  {
    TotalUpdate(s.stages, IsCounting, c, stage);
    TotalUpdate(s.stages, IsTaken, c, stage);
  }

  lemma TryShardKeepsCount(s: State, c: nat, k: nat, otherwise: Stage)
    requires c < |s.stages| && k < |s.shards| == |s.popped| && CountInv(s)
    requires Owed(s.stages[c]) == Owed(otherwise) == 0
    ensures CountInv(TryShard(s, c, k, otherwise))
  {
    AtCounts(s, c, TryShard(s, c, k, otherwise).stages[c]);
    if s.shards[k] != [] {
      TotalUpdate(s.shards, Size, k, s.shards[k][1..]);
    }
  }

  lemma PlaceKeepsCount(s: State, c: nat)
    requires Shaped(s) && c < |s.stages| && CountInv(s) && s.stages[c].Placing?
    ensures CountInv(Next(s, c))
  {
    var k := s.stages[c].shard;
    AtCounts(s, c, Counting);
    TotalUpdate(s.shards, Size, k, s.shards[k] + [s.stages[c].task]);
  }

  // A step that leaves the shards alone: the counter moves as the debt does.
  lemma MoveKeepsCount(s: State, c: nat, stage: Stage)
    requires c < |s.stages| && CountInv(s)
    ensures CountInv(At(s, c, stage).(total := s.total + Owed(s.stages[c]) - Owed(stage)))
  {
    AtCounts(s, c, stage);
  }

  lemma NextKeepsCount(s: State, c: nat)
    requires Shaped(s) && c < |s.stages| && CountInv(s)
    ensures CountInv(Next(s, c))
  {
    var stage := s.stages[c];
    if stage.Placing? {
      PlaceKeepsCount(s, c);
    } else if stage.OwnFirst? && 0 <= stage.worker < |s.shards| {
      TryShardKeepsCount(s, c, stage.worker, Sweeping(stage.worker, 0));
    } else if stage.Sweeping? && stage.next < |s.shards| && stage.next != stage.worker {
      TryShardKeepsCount(s, c, stage.next, Sweeping(stage.worker, stage.next + 1));
    } else if !stage.Idle? {
      var stage' := NextIsMove(s, c);
      MoveKeepsCount(s, c, stage');
    }
  }

  lemma NextIsMove(s: State, c: nat) returns (stage': Stage)
    requires Shaped(s) && c < |s.stages| && !s.stages[c].Idle? && !s.stages[c].Placing?
    requires s.stages[c].OwnFirst? ==> !(0 <= s.stages[c].worker < |s.shards|)
    requires s.stages[c].Sweeping? ==> s.stages[c].next >= |s.shards| || s.stages[c].next == s.stages[c].worker
    ensures Next(s, c) == At(s, c, stage').(total := s.total + Owed(s.stages[c]) - Owed(stage'))
  {
    stage' := Next(s, c).stages[c];
  }

  lemma ApplyKeepsCount(s: State, a: Action)
    requires Shaped(s) && CountInv(s)
    ensures CountInv(Apply(s, a))
  {
    if a.caller < |s.stages| {
      if a.Step? {
        NextKeepsCount(s, a.caller);
      } else if Apply(s, a) != s {
        var stage := Apply(s, a).stages[a.caller];
        TotalUpdate(s.stages, IsCounting, a.caller, stage);
        TotalUpdate(s.stages, IsTaken, a.caller, stage);
      }
    }
  }

  lemma ApplyKeepsFifo(s: State, a: Action)
    requires Shaped(s) && FifoInv(s)
    ensures Shaped(Apply(s, a)) && FifoInv(Apply(s, a))
  {
    ApplyKeepsShape(s, a);
    if a.caller < |s.stages| && a.Step? {
      var s' := Next(s, a.caller);
      forall k | 0 <= k < |s.shards| ensures s'.pushed[k] == s'.popped[k] + s'.shards[k] {
        assert s.pushed[k] == s.popped[k] + s.shards[k];
      }
    }
  }

  lemma {:induction false} RunKeepsInv(s: State, actions: seq<Action>)
    requires Shaped(s) && CountInv(s) && FifoInv(s)
    ensures var s' := RunFrom(s, actions);
      Shaped(s') && CountInv(s') && FifoInv(s') && |s'.shards| == |s.shards|
    decreases |actions|
  {
    if actions != [] {
      ApplyKeepsShape(s, actions[0]);
      ApplyKeepsCount(s, actions[0]);
      ApplyKeepsFifo(s, actions[0]);
      RunKeepsInv(Apply(s, actions[0]), actions[1..]);
    }
  }

  lemma {:induction false} TotalOfRepeat<T>(n: nat, x: T, f: T -> int)
    requires f(x) == 0
    ensures Total(Repeat(n, x), f) == 0
    decreases n
  {
    if n > 0 {
      assert Repeat(n, x)[1..] == Repeat(n - 1, x);
      TotalOfRepeat(n - 1, x, f);
    }
  }

  lemma InvAlways(workers: nat, callers: nat, actions: seq<Action>)
    requires workers > 0
    ensures var s := RunFrom(Start(workers, callers), actions);
      Shaped(s) && CountInv(s) && FifoInv(s) && |s.shards| == workers
  {
    TotalOfRepeat<seq<TaskId>>(workers, [], Size);
    TotalOfRepeat(callers, Idle(None), IsCounting);
    TotalOfRepeat(callers, Idle(None), IsTaken);
    RunKeepsInv(Start(workers, callers), actions);
  }

  // ---- What the runs promise ----

  /** The counter is the number of tasks in the shards, less the pushes that have yet to
      count theirs, plus the pops that have yet to discount theirs. */
  lemma CountAlways(workers: nat, callers: nat, actions: seq<Action>)
    requires workers > 0
    ensures var s := RunFrom(Start(workers, callers), actions);
      s.total == Total(s.shards, Size) - Total(s.stages, IsCounting) + Total(s.stages, IsTaken)
  {
    InvAlways(workers, callers, actions);
  }

  predicate Settled(s: State) {
    forall c | 0 <= c < |s.stages| :: !s.stages[c].Counting? && !s.stages[c].Taken?
  }

  predicate AllEmpty(shards: seq<seq<TaskId>>) {
    forall k | 0 <= k < |shards| :: shards[k] == []
  }

  /** With no call between its shard and the counter, Empty() answers whether every shard is
      empty. */
  lemma EmptyWhenSettled(workers: nat, callers: nat, actions: seq<Action>)
    requires workers > 0 && Settled(RunFrom(Start(workers, callers), actions))
    ensures var s := RunFrom(Start(workers, callers), actions); s.total == 0 <==> AllEmpty(s.shards)
  {
    InvAlways(workers, callers, actions);
    var s := RunFrom(Start(workers, callers), actions);
    TotalZero(s.stages, IsCounting);
    TotalZero(s.stages, IsTaken);
    TotalZero(s.shards, Size);
  }

  /** Exactly when Empty() answers rightly: with nothing in the shards, when as many pushes have
      yet to count theirs as pops have yet to discount theirs; with tasks in the shards, unless
      the pushes yet to count outnumber those pops by just the number of tasks. */
  lemma EmptyIsRightIff(workers: nat, callers: nat, actions: seq<Action>)
    requires workers > 0
    ensures var s := RunFrom(Start(workers, callers), actions);
      var size, counting, taken := Total(s.shards, Size), Total(s.stages, IsCounting), Total(s.stages, IsTaken);
      (s.total == 0 <==> AllEmpty(s.shards)) <==> (if size == 0 then counting == taken else counting != size + taken)
  {
    InvAlways(workers, callers, actions);
    TotalZero(RunFrom(Start(workers, callers), actions).shards, Size);
  }

  /** It can be wrong either way: a pop that overtakes the push's count leaves the counter below
      zero with nothing in the shards, and a task whose push has yet to count it is not seen. */
  lemma CountGoesNegative()
    ensures var s := RunFrom(Start(1, 2), [BeginPush(0, 7), Step(0)]);
      Shaped(s) && s.total == 0 && s.shards == [[7]]
    ensures var s := RunFrom(Start(1, 2), [BeginPush(0, 7), Step(0), BeginPop(1, 0), Step(1), Step(1)]);
      Shaped(s) && s.total == -1 && AllEmpty(s.shards) && s.stages[1] == Idle(Some(7))
  {
    var s0 := Start(1, 2);
    assert Usable(0, 1);
    var s1 := Apply(s0, BeginPush(0, 7));
    assert s1.stages[0] == Placing(7, 0);
    var s2 := Apply(s1, Step(0));
    var s3 := Apply(s2, BeginPop(1, 0));
    assert s3.shards[0] == [7] && s3.stages[1] == OwnFirst(0);
    var s4 := Apply(s3, Step(1));
    var s5 := Apply(s4, Step(1));
    assert RunFrom(s5, []) == s5;
    assert RunFrom(s4, [Step(1)]) == s5;
    assert RunFrom(s3, [Step(1), Step(1)]) == s5;
    assert RunFrom(s2, [BeginPop(1, 0), Step(1), Step(1)]) == s5;
    assert RunFrom(s1, [Step(0), BeginPop(1, 0), Step(1), Step(1)]) == s5;
    assert RunFrom(s1, [Step(0)]) == RunFrom(s2, []) && s2.shards == [[7]];
  }

  /** Each shard gives out its tasks in the order in which they were pushed to it, each once. */
  lemma ShardsAreFifo(workers: nat, callers: nat, actions: seq<Action>, k: nat)
    requires k < workers
    ensures var s := RunFrom(Start(workers, callers), actions);
      k < |s.shards| == |s.pushed| == |s.popped| && s.pushed[k] == s.popped[k] + s.shards[k]
  {
    InvAlways(workers, callers, actions);
  }

  // A push that has drawn shard k and has yet to reach it.
  function HeadedFor(k: nat): Stage -> int {
    (stage: Stage) => if stage.Placing? && stage.shard == k then 1 else 0
  }

  // The pushes that have drawn shard k.
  function DealtTo(s: State, k: nat): int
    requires k < |s.pushed|
  {
    |s.pushed[k]| + Total(s.stages, HeadedFor(k))
  }

  // Until the counter wraps: one push in `workers`, from push k on.
  predicate DealtInv(s: State, k: nat)
    requires Shaped(s) && k < |s.shards|
  {
    s.draws <= 0x8000_0000 ==> DealtTo(s, k) == (s.draws + |s.shards| - 1 - k) / |s.shards|
  }

  lemma NextDraw(draws: nat, workers: nat, k: nat)
    requires k < workers
    ensures (draws + workers - k) / workers ==
      (draws + workers - 1 - k) / workers + if draws % workers == k then 1 else 0
  {
    var q, r := draws / workers, draws % workers;
    var few := if k <= r then 1 else 0;
    var fewer := if k < r then 1 else 0;
    QuotientIs(draws + workers - k, workers, q + few, r - k + workers * (1 - few));
    QuotientIs(draws + workers - 1 - k, workers, q + fewer, r - k - 1 + workers * (1 - fewer));
  }

  lemma QuotientIs(a: int, n: nat, q: int, r: int)
    requires 0 <= r < n && a == q * n + r
    ensures a / n == q
  {
    RoundRobin.MultipleGap(a / n - q, n);
    assert a == (a / n) * n + a % n;
    assert (a / n - q) * n == r - a % n;
  }

  lemma ApplyKeepsDealt(s: State, a: Action, k: nat)
    requires Shaped(s) && k < |s.shards| && DealtInv(s, k)
    ensures Shaped(Apply(s, a)) && DealtInv(Apply(s, a), k)
  {
    var s' := Apply(s, a);
    ApplyKeepsShape(s, a);
    if s' == s {
    } else if a.BeginPush? {
      DrawKeepsDealt(s, a.caller, a.task, k);
    } else {
      MoveKeepsDealt(s, a, k);
    }
  }

  lemma DrawKeepsDealt(s: State, c: nat, task: TaskId, k: nat)
    requires Shaped(s) && k < |s.shards| && DealtInv(s, k) && Apply(s, BeginPush(c, task)) != s
    ensures DealtInv(Apply(s, BeginPush(c, task)), k)
  {
    TotalUpdate(s.stages, HeadedFor(k), c, Placing(task, Assigned(s.draws, |s.shards|)));
    if s.draws < 0x8000_0000 {
      RoundRobin.AssignedInTurn(s.draws, |s.shards|);
      NextDraw(s.draws, |s.shards|, k);
    }
  }

  // What is not a draw moves no push from one shard to another.
  lemma MoveKeepsDealt(s: State, a: Action, k: nat)
    requires Shaped(s) && k < |s.shards| && Apply(s, a) != s && !a.BeginPush?
    ensures var s' := Apply(s, a);
      s'.draws == s.draws && k < |s'.pushed| == |s.pushed| && DealtTo(s', k) == DealtTo(s, k)
  {
    TotalUpdate(s.stages, HeadedFor(k), a.caller, Apply(s, a).stages[a.caller]);
  }

  lemma {:induction false} RunKeepsDealt(s: State, actions: seq<Action>, k: nat)
    requires Shaped(s) && k < |s.shards| && DealtInv(s, k)
    ensures Shaped(RunFrom(s, actions)) && k < |RunFrom(s, actions).shards| && DealtInv(RunFrom(s, actions), k)
    ensures |RunFrom(s, actions).shards| == |s.shards|
    decreases |actions|
  {
    if actions != [] {
      ApplyKeepsShape(s, actions[0]);
      ApplyKeepsDealt(s, actions[0], k);
      RunKeepsDealt(Apply(s, actions[0]), actions[1..], k);
    }
  }

  /** In every run, until the counter wraps, the pushes are dealt out evenly, whatever else
      goes on: shard k has had every push that was drawn as number k, k + workers, and so on. */
  lemma DealtEvenly(workers: nat, callers: nat, actions: seq<Action>, k: nat)
    requires k < workers && RunFrom(Start(workers, callers), actions).draws <= 0x8000_0000
    ensures var s := RunFrom(Start(workers, callers), actions);
      k < |s.pushed| && |s.pushed[k]| + Total(s.stages, HeadedFor(k)) == (s.draws + workers - 1 - k) / workers
  {
    TotalOfRepeat(callers, Idle(None), HeadedFor(k));
    QuotientIs(workers - 1 - k, workers, 0, workers - 1 - k);
    RunKeepsDealt(Start(workers, callers), actions, k);
  }

  // No push reaches a shard on the way, and this caller begins no other call.
  predicate Calm(s: State, actions: seq<Action>, c: nat)
    requires Shaped(s)
    decreases |actions|
  {
    if actions == [] then true
    else
      var a := actions[0];
      ApplyKeepsShape(s, a);
      && (a.Step? && a.caller < |s.stages| ==> !s.stages[a.caller].Placing?)
      && (a.caller == c ==> a.Step?)
      && Calm(Apply(s, a), actions[1..], c)
  }

  // The caller's Pop: what it has tried so far is empty.
  predicate Swept(s: State, c: nat)
    requires c < |s.stages|
  {
    match s.stages[c]
    case OwnFirst(_) => true
    case Sweeping(w, i) =>
      && (0 <= w < |s.shards| ==> s.shards[w] == [])
      && forall k | 0 <= k < i && k < |s.shards| :: s.shards[k] == []
    case Taken(_) => true
    case Idle(None) => AllEmpty(s.shards)
    case Idle(Some(_)) => true
    case Placing(_, _) => false
    case Counting => false
  }

  lemma ApplyKeepsSwept(s: State, a: Action, c: nat)
    requires Shaped(s) && c < |s.stages| && Swept(s, c) && Calm(s, [a], c)
    ensures Swept(Apply(s, a), c)
  {
  }

  lemma {:induction false} RunKeepsSwept(s: State, actions: seq<Action>, c: nat)
    requires Shaped(s) && c < |s.stages| && Swept(s, c) && Calm(s, actions, c)
    ensures |RunFrom(s, actions).stages| == |s.stages| && Swept(RunFrom(s, actions), c)
    decreases |actions|
  {
    if actions != [] {
      ApplyKeepsShape(s, actions[0]);
      assert Calm(Apply(s, actions[0]), [], c);
      assert [actions[0]][1..] == [];
      ApplyKeepsSwept(s, actions[0], c);
      RunKeepsSwept(Apply(s, actions[0]), actions[1..], c);
    }
  }

  /** A Pop during which nothing is pushed returns null only when every shard is empty,
      however many other callers pop meanwhile. */
  lemma PopMissesNothing(s: State, actions: seq<Action>, c: nat, worker: int)
    requires Shaped(s) && c < |s.stages| && s.stages[c] == OwnFirst(worker) && Calm(s, actions, c)
    ensures var s' := RunFrom(s, actions);
      |s'.stages| == |s.stages| && (s'.stages[c] == Idle(None) ==> AllEmpty(s'.shards))
  {
    RunKeepsSwept(s, actions, c);
  }

  // ---- The class ----

  // The shard that a Pop by this worker takes from.
  function Source(shards: seq<seq<TaskId>>, worker: int): (k: Option<nat>)
    ensures k.None? <==> AllEmpty(shards)
    ensures k.Some? ==>
      && k.value < |shards| && shards[k.value] != []
      && if 0 <= worker < |shards| && shards[worker] != [] then k.value == worker
         else forall j: nat | j < k.value :: shards[j] == []
  {
    if 0 <= worker < |shards| && shards[worker] != [] then Some(worker) else FirstNonEmpty(shards, 0)
  }

  function FirstNonEmpty(shards: seq<seq<TaskId>>, from: nat): (k: Option<nat>)
    requires from <= |shards| && forall j: nat | j < from :: shards[j] == []
    ensures k.None? <==> AllEmpty(shards)
    ensures k.Some? ==> k.value < |shards| && shards[k.value] != [] && forall j: nat | j < k.value :: shards[j] == []
    decreases |shards| - from
  {
    if from == |shards| then None
    else if shards[from] != [] then Some(from)
    else FirstNonEmpty(shards, from + 1)
  }

  /** A Push with nobody else at work: two steps after it has drawn its shard the task is at the back
      of that shard, counted, and nothing else has changed. The class's Push does the same. */
  lemma PushAlone(s: State, c: nat, task: TaskId)
    requires Shaped(s) && c < |s.stages| && s.stages[c].Idle? && Usable(s.draws, |s.shards|)
    ensures var k := Assigned(s.draws, |s.shards|);
      RunFrom(s, [BeginPush(c, task), Step(c), Step(c)]) ==
        State(s.shards[k := s.shards[k] + [task]], s.total + 1, s.draws + 1, s.stages[c := Idle(None)],
              s.pushed[k := s.pushed[k] + [task]], s.popped)
  {
    var s1 := Apply(s, BeginPush(c, task));
    var s2 := Apply(s1, Step(c));
    var s3 := Apply(s2, Step(c));
    assert RunFrom(s3, []) == s3;
    assert [BeginPush(c, task), Step(c), Step(c)][1..] == [Step(c), Step(c)] && [Step(c), Step(c)][1..] == [Step(c)];
    assert RunFrom(s2, [Step(c)]) == s3;
    assert RunFrom(s1, [Step(c), Step(c)]) == s3;
    assert s3.stages == s.stages[c := Idle(None)];
  }

  // What a Pop comes to that takes from this shard, or from none.
  function Popped(s: State, c: nat, source: Option<nat>): State
    requires Shaped(s) && c < |s.stages|
    requires source.Some? ==> source.value < |s.shards| && s.shards[source.value] != []
  {
    if source.None? then At(s, c, Idle(None))
    else
      var task := s.shards[source.value][0];
      At(s, c, Idle(Some(task))).(
        shards := s.shards[source.value := s.shards[source.value][1..]], total := s.total - 1,
        popped := s.popped[source.value := s.popped[source.value] + [task]])
  }

  lemma StepThen(s: State, a: Action, rest: seq<Action>)
    requires Shaped(s)
    ensures Shaped(Apply(s, a)) && RunFrom(s, [a] + rest) == RunFrom(Apply(s, a), rest)
  {
    ApplyKeepsShape(s, a);
    assert ([a] + rest)[1..] == rest;
  }

  // Two steps of a call that has come to a shard with a task: take it, and discount it.
  lemma TakeAlone(s: State, c: nat, k: nat)
    requires Shaped(s) && c < |s.stages| && k < |s.shards| && s.shards[k] != []
    requires s.stages[c].OwnFirst? || s.stages[c].Sweeping?
    requires Next(s, c) == TryShard(s, c, k, Idle(None))
    ensures RunFrom(s, Repeat(2, Step(c))) == Popped(s, c, Some(k))
  {
    var s1 := Apply(s, Step(c));
    var s2 := Apply(s1, Step(c));
    assert s2.stages == s.stages[c := Idle(Some(s.shards[k][0]))];
    ApplyKeepsShape(s, Step(c));
    assert Repeat(2, Step(c)) == [Step(c), Step(c)] && [Step(c), Step(c)][1..] == [Step(c)];
    assert RunFrom(s2, []) == s2 && RunFrom(s1, [Step(c)]) == s2;
  }

  lemma {:induction false} SweepAlone(s: State, c: nat, w: int, i: nat) returns (n: nat)
    requires Shaped(s) && c < |s.stages| && s.stages[c] == Sweeping(w, i) && i <= |s.shards|
    requires (0 <= w < |s.shards| ==> s.shards[w] == []) && forall j: nat | j < i :: s.shards[j] == []
    ensures RunFrom(s, Repeat(n, Step(c))) == Popped(s, c, FirstNonEmpty(s.shards, i))
    decreases |s.shards| - i
  {
    if i == |s.shards| {
      n := 1;
      assert Repeat(0, Step(c)) == [];
      StepThen(s, Step(c), []);
    } else if s.shards[i] != [] {
      n := 2;
      TakeAlone(s, c, i);
    } else {
      var s' := At(s, c, Sweeping(w, i + 1));
      assert Apply(s, Step(c)) == s';
      var m := SweepAlone(s', c, w, i + 1);
      StepThen(s, Step(c), Repeat(m, Step(c)));
      n := m + 1;
      SamePopped(s, c, Sweeping(w, i + 1), FirstNonEmpty(s.shards, i));
    }
  }

  // Where the caller was before does not matter.
  lemma SamePopped(s: State, c: nat, stage: Stage, source: Option<nat>)
    requires Shaped(s) && c < |s.stages| && !stage.Placing?
    requires source.Some? ==> source.value < |s.shards| && s.shards[source.value] != []
    ensures Popped(At(s, c, stage), c, source) == Popped(s, c, source)
  {
    var last := Popped(s, c, source).stages[c];
    assert At(s, c, stage).stages[c := last] == s.stages[c := last];
  }

  /** A Pop with nobody else at work comes to what the class's Pop does: the first task of its own
      shard, or of the first shard that has one, or null. */
  lemma PopAlone(s: State, c: nat, w: int) returns (n: nat)
    requires Shaped(s) && c < |s.stages| && s.stages[c].Idle?
    ensures RunFrom(s, [BeginPop(c, w)] + Repeat(n, Step(c))) == Popped(s, c, Source(s.shards, w))
  {
    var s1 := Apply(s, BeginPop(c, w));
    ApplyKeepsShape(s, BeginPop(c, w));
    SamePopped(s, c, OwnFirst(w), Source(s.shards, w));
    if 0 <= w < |s.shards| && s.shards[w] != [] {
      n := 2;
      TakeAlone(s1, c, w);
      StepThen(s, BeginPop(c, w), Repeat(2, Step(c)));
    } else {
      var s2 := Apply(s1, Step(c));
      ApplyKeepsShape(s1, Step(c));
      SamePopped(s1, c, Sweeping(w, 0), Source(s.shards, w));
      var m := SweepAlone(s2, c, w, 0);
      n := m + 1;
      StepThen(s1, Step(c), Repeat(m, Step(c)));
      StepThen(s, BeginPop(c, w), Repeat(n, Step(c)));
    }
  }

  class SharedMPSCQueue {
    var shards: seq<seq<TaskId>>
    var roundRobin: nat    // draws so far
    var totalCount: int

    ghost predicate Valid()
      reads this
    {
      0 < |shards| && totalCount == Total(shards, Size)
    }

    // The constructor and Init.
    constructor (workerCount: nat)
      requires workerCount > 0
      ensures Valid() && shards == Repeat(workerCount, []) && roundRobin == 0
    {
      shards, roundRobin, totalCount := Repeat(workerCount, []), 0, 0;
      TotalOfRepeat<seq<TaskId>>(workerCount, [], Size);
    }

    /** The task goes to the back of the drawn shard and is counted. An index outside the
        shards, with which the source's access is undefined, leaves them as they are here. */
    method Push(task: TaskId) returns (shard: int)
      requires Valid()
      modifies this
      ensures Valid() && roundRobin == old(roundRobin) + 1
      ensures shard == Assigned(old(roundRobin), |old(shards)|)
      ensures if 0 <= shard < |old(shards)| then shards == old(shards)[shard := old(shards)[shard] + [task]]
        else shards == old(shards)
    {
      shard := Assigned(roundRobin, |shards|);
      roundRobin := roundRobin + 1;
      if shard < 0 || shard >= |shards| {
        return;
      }
      TotalUpdate(shards, Size, shard, shards[shard] + [task]);
      shards := shards[shard := shards[shard] + [task]];
      totalCount := totalCount + 1;
    }

    method TryPop(k: nat) returns (task: Option<TaskId>)
      requires Valid() && k < |shards|
      modifies `shards, `totalCount
      ensures Valid()
      ensures old(shards)[k] == [] ==> task == None && shards == old(shards)
      ensures old(shards)[k] != [] ==>
        task == Some(old(shards)[k][0]) && shards == old(shards)[k := old(shards)[k][1..]]
    {
      if shards[k] == [] {
        return None;
      }
      task := Some(shards[k][0]);
      TotalUpdate(shards, Size, k, shards[k][1..]);
      shards := shards[k := shards[k][1..]];
      totalCount := totalCount - 1;
    }

    /** Its own shard's first task if there is one, otherwise the first task of the first
        shard that has any; null only when every shard is empty. */
    method Pop(workerId: int) returns (task: Option<TaskId>)
      requires Valid()
      modifies `shards, `totalCount
      ensures Valid()
      ensures match Source(old(shards), workerId)
        case None => task == None && shards == old(shards)
        case Some(k) => task == Some(old(shards)[k][0]) && shards == old(shards)[k := old(shards)[k][1..]]
    {
      if 0 <= workerId < |shards| {
        task := TryPop(workerId);
        if task.Some? {
          return;
        }
      }
      for i := 0 to |shards|
        invariant Valid() && shards == old(shards)
        invariant forall j | 0 <= j < i :: shards[j] == []
      {
        if i == workerId {
          continue;
        }
        task := TryPop(i);
        if task.Some? {
          return;
        }
      }
      return None;
    }

    method Empty() returns (empty: bool)
      requires Valid()
      ensures empty <==> AllEmpty(shards)
    {
      TotalZero(shards, Size);
      return totalCount == 0;
    }
  }
}
