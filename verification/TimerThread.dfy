/**
 The timer thread's own operations over its shards: `Schedule`, `Cancel`'s sweep and one pass
 of the main loop. Each is tied to the steps that `TimerRuns` interleaves: `run` is the
 machine state that the shards stand for.
 */
module TimerThread {
  import opened Options
  import opened RoundRobin
  import opened TimerHeap
  import opened TimerShard
  import opened TimerRuns

  datatype Timespec = Timespec(sec: int, nsec: int)

  function DelayUs(delay: Timespec): int {
    delay.sec * 1000000 + Quotient(delay.nsec, 1000)
  }

  /** A second is a million microseconds, and nanoseconds are cut off towards zero. */
  lemma DelayInMicroseconds(delay: Timespec)
    ensures var ns := delay.sec * 1_000_000_000 + delay.nsec; var us := DelayUs(delay);
      if delay.nsec >= 0 then us * 1000 <= ns < us * 1000 + 1000 else us * 1000 - 1000 < ns <= us * 1000
  {
  }

  function ViewsOf(shards: seq<Shard>): (r: seq<ShardState>)
    reads shards
    ensures |r| == |shards| && forall i | 0 <= i < |shards| :: r[i] == shards[i].View()
  {
    if shards == [] then [] else ViewsOf(shards[..|shards| - 1]) + [shards[|shards| - 1].View()]
  }

  // ---- Calls as runs ----

  // Schedule's two steps.
  function Scheduled(s: State, deadline: int, arg: nat, shard: nat): State {
    Apply(Apply(s, DrawId(deadline, arg)), InsertInto(shard, s.nextId))
  }

  lemma ScheduledAdds(s: State, deadline: int, arg: nat, shard: nat)
    requires shard < |s.shards|
    ensures var s' := Scheduled(s, deadline, arg, shard);
      && s'.shards == s.shards[shard := Added(s.shards[shard], Timer(s.nextId, deadline, arg, false))]
      && s'.nextId == s.nextId + 1 && s'.log == s.log
  {
  }

  // The thread is in ProcessShard.
  predicate InCall(s: State) {
    s.phase.Processing? && s.phase.shard < |s.shards|
  }

  function HeapLeft(s: State): nat {
    if InCall(s) then |s.shards[s.phase.shard].heap| else 0
  }

  // Its next turn takes an entry whose callback will run, with the lock dropped.
  predicate TurnCalls(s: State)
    requires InCall(s)
  {
    var shard := s.shards[s.phase.shard];
    RootDue(shard, s.phase.now) && !shard.heap[0].cancelled
  }

  predicate ByOthers(actions: seq<Action>) {
    forall a | a in actions :: !a.ThreadStep?
  }

  /** One call of ProcessShard among others' actions: those of `others[k]` fall into the k-th
      dropping of the lock, and those left over are not made. */
  function CallRun(s: State, others: seq<seq<Action>>): seq<Action>
    decreases |others|, HeapLeft(s)
  {
    if !InCall(s) then []
    else if !RootDue(s.shards[s.phase.shard], s.phase.now) then [ThreadStep]
    else if others == [] || !TurnCalls(s) then [ThreadStep] + CallRun(ThreadNext(s), others)
    else [ThreadStep] + (others[0] + CallRun(RunFrom(ThreadNext(s), others[0]), others[1..]))
  }

  // What an action does to shard i, as a visit.
  function VisitOf(s: State, i: nat, a: Action): seq<Visit> {
    match a
    case InsertInto(shard, id) =>
      if shard == i && id in s.places && s.places[id].Drawn? then [Visit.Schedule(s.places[id].t)] else []
    case CancelIn(shard, id) => if shard == i && InShard(s, i, id) then [Visit.Cancel(id)] else []
    case _ => []
  }

  function VisitsIn(s: State, i: nat, actions: seq<Action>): seq<Visit>
    decreases |actions|
  {
    if actions == [] then [] else VisitOf(s, i, actions[0]) + VisitsIn(Apply(s, actions[0]), i, actions[1..])
  }

  // The visits to the call's own shard while the lock is dropped.
  function WindowsOf(s: State, others: seq<seq<Action>>): seq<seq<Visit>>
    decreases |others|, HeapLeft(s)
  {
    if others == [] || !InCall(s) || !RootDue(s.shards[s.phase.shard], s.phase.now) then []
    else if !TurnCalls(s) then WindowsOf(ThreadNext(s), others)
    else
      var s' := ThreadNext(s);
      [VisitsIn(s', s.phase.shard, others[0])] + WindowsOf(RunFrom(s', others[0]), others[1..])
  }

  function FiredIn(log: seq<Event>): seq<Timer> {
    if log == [] then []
    else FiredIn(log[..|log| - 1]) + if log[|log| - 1].Fired? then [log[|log| - 1].t] else []
  }

  lemma FiredSnoc(log: seq<Event>, e: Event)
    ensures FiredIn(log + [e]) == FiredIn(log) + if e.Fired? then [e.t] else []
  {
    assert (log + [e])[..|log|] == log;
  }

  lemma OtherVisits(s: State, a: Action)
    requires InCall(s) && !a.ThreadStep?
    ensures var s', i := Apply(s, a), s.phase.shard;
      && s'.phase == s.phase && s'.shards[i] == VisitedBy(s.shards[i], VisitOf(s, i, a))
      && FiredIn(s'.log) == FiredIn(s.log)
  {
    if a.CancelIn? {
      FiredSnoc(s.log, Cancelled(a.id));
    }
  }

  lemma {:induction false} OthersVisit(s: State, actions: seq<Action>, rest: seq<Action>)
    requires InCall(s) && ByOthers(actions)
    ensures var s', i := RunFrom(s, actions), s.phase.shard;
      && s'.phase == s.phase && s'.shards[i] == VisitedBy(s.shards[i], VisitsIn(s, i, actions))
      && FiredIn(s'.log) == FiredIn(s.log)
    ensures RunFrom(s, actions + rest) == RunFrom(RunFrom(s, actions), rest)
    decreases |actions|
  {
    if actions == [] {
      assert actions + rest == rest;
    } else {
      assert actions[0] in actions && (actions + rest)[1..] == actions[1..] + rest;
      OtherVisits(s, actions[0]);
      OthersVisit(Apply(s, actions[0]), actions[1..], rest);
      VisitedByConcat(s.shards[s.phase.shard], VisitOf(s, s.phase.shard, actions[0]),
                      VisitsIn(Apply(s, actions[0]), s.phase.shard, actions[1..]));
    }
  }

  // The state s' comes after a call from s in which the given visits were made.
  predicate IsProcessed(s: State, windows: seq<seq<Visit>>, s': State)
    requires InCall(s)
  {
    var i := s.phase.shard;
    var (shard, fired) := Processed(s.shards[i], s.phase.now, windows);
    && |s'.shards| == |s.shards| && s'.shards[i] == shard && s'.phase == Scanning(i + 1, s.phase.scanNow)
    && FiredIn(s'.log) == FiredIn(s.log) + fired
  }

  // A turn without a callback, and the rest of the call.
  lemma QuietTurn(s: State, windows: seq<seq<Visit>>, s': State)
    requires InCall(s) && RootDue(s.shards[s.phase.shard], s.phase.now) && !TurnCalls(s)
    requires IsProcessed(ThreadNext(s), windows, s')
    ensures IsProcessed(s, windows, s')
  {
    var shard := s.shards[s.phase.shard];
    assert ThreadNext(s).shards[s.phase.shard] == RootTaken(shard);
    assert Processed(shard, s.phase.now, windows) == Processed(RootTaken(shard), s.phase.now, windows);
  }

  // What a turn with a callback leaves.
  lemma CallingTurn(s: State)
    requires InCall(s) && TurnCalls(s)
    ensures var s', i := ThreadNext(s), s.phase.shard;
      && InCall(s') && s'.phase == s.phase && s'.shards[i] == RootTaken(s.shards[i])
      && FiredIn(s'.log) == FiredIn(s.log) + [s.shards[i].heap[0]]
  {
    FiredSnoc(s.log, Fired(s.shards[s.phase.shard].heap[0], s.clock));
  }

  // The turn, others' visits or none, and the rest of the call.
  lemma CallingTurnThenRest(s: State, s2: State, windows: seq<seq<Visit>>, s': State)
    requires InCall(s) && TurnCalls(s) && InCall(s2) && s2.phase == s.phase
    requires |s2.shards| == |s.shards| && s2.shards[s.phase.shard] ==
      var taken := RootTaken(s.shards[s.phase.shard]);
      if windows == [] then taken else VisitedBy(taken, windows[0])
    requires FiredIn(s2.log) == FiredIn(s.log) + [s.shards[s.phase.shard].heap[0]]
    requires IsProcessed(s2, if windows == [] then [] else windows[1..], s')
    ensures IsProcessed(s, windows, s')
  {
    var i, root := s.phase.shard, s.shards[s.phase.shard].heap[0];
    var rest := Processed(s2.shards[i], s.phase.now, if windows == [] then [] else windows[1..]);
    assert Processed(s.shards[i], s.phase.now, windows) == (rest.0, [root] + rest.1);
    assert FiredIn(s.log) + [root] + rest.1 == FiredIn(s.log) + ([root] + rest.1);
  }

  lemma TurnFirst(s: State, rest: seq<Action>)
    ensures RunFrom(s, [ThreadStep] + rest) == RunFrom(ThreadNext(s), rest)
  {
    assert ([ThreadStep] + rest)[1..] == rest && Apply(s, ThreadStep) == ThreadNext(s);
  }

  /** ProcessShard is the thread's turns, with whatever others do, in any shard, whenever it has
      dropped the lock: the machine comes to the state that `Processed` computes from the visits
      to its own shard, and its callbacks are the events that the turns log. */
  lemma {:induction false} ProcessShardIsARun(s: State, others: seq<seq<Action>>)
    requires InCall(s) && forall actions | actions in others :: ByOthers(actions)
    ensures IsProcessed(s, WindowsOf(s, others), RunFrom(s, CallRun(s, others)))
    decreases |others|, HeapLeft(s)
  {
    var s1 := ThreadNext(s);
    if !RootDue(s.shards[s.phase.shard], s.phase.now) {
      TurnFirst(s, []);
      assert [ThreadStep] + [] == [ThreadStep];
    } else if !TurnCalls(s) {
      ProcessShardIsARun(s1, others);
      TurnFirst(s, CallRun(s1, others));
      QuietTurn(s, WindowsOf(s1, others), RunFrom(s1, CallRun(s1, others)));
    } else {
      CallingTurn(s);
      if others == [] {
        ProcessShardIsARun(s1, []);
        TurnFirst(s, CallRun(s1, []));
        CallingTurnThenRest(s, s1, [], RunFrom(s1, CallRun(s1, [])));
      } else {
        CallWithVisits(s, others);
      }
    }
  }

  lemma {:induction false} CallWithVisits(s: State, others: seq<seq<Action>>)
    requires InCall(s) && TurnCalls(s) && others != [] && forall actions | actions in others :: ByOthers(actions)
    ensures IsProcessed(s, WindowsOf(s, others), RunFrom(s, CallRun(s, others)))
    decreases |others|, HeapLeft(s), 0
  {
    var s1 := ThreadNext(s);
    var s2 := RunFrom(s1, others[0]);
    var rest := CallRun(s2, others[1..]);
    assert others[0] in others && forall actions | actions in others[1..] :: actions in others;
    CallingTurn(s);
    OthersVisit(s1, others[0], rest);
    ProcessShardIsARun(s2, others[1..]);
    TurnFirst(s, others[0] + rest);
    CallingTurnThenRest(s, s2, WindowsOf(s, others), RunFrom(s2, rest));
  }

  function Calls(fired: seq<Timer>, at: int): seq<Event> {
    if fired == [] then [] else [Fired(fired[0], at)] + Calls(fired[1..], at)
  }

  /** Undisturbed, the call changes no other shard, and all that it logs is its callbacks. */
  lemma {:induction false} UndisturbedCall(s: State)
    requires InCall(s)
    ensures var s', i := RunFrom(s, CallRun(s, [])), s.phase.shard;
      var (shard, fired) := Processed(s.shards[i], s.phase.now, []);
      s'.shards == s.shards[i := shard] && s'.log == s.log + Calls(fired, s.clock)
    decreases HeapLeft(s)
  {
    var s1 := ThreadNext(s);
    if !RootDue(s.shards[s.phase.shard], s.phase.now) {
      TurnFirst(s, []);
      assert [ThreadStep] + [] == [ThreadStep];
    } else {
      UndisturbedCall(s1);
      TurnFirst(s, CallRun(s1, []));
      TurnThenRest(s);
    }
  }

  lemma TurnThenRest(s: State)
    requires InCall(s) && RootDue(s.shards[s.phase.shard], s.phase.now)
    ensures var s1, i, shard := ThreadNext(s), s.phase.shard, s.shards[s.phase.shard];
      var (end, fired) := Processed(shard, s.phase.now, []); var (end1, fired1) := Processed(RootTaken(shard), s.phase.now, []);
      && s1.shards == s.shards[i := RootTaken(shard)] && s1.clock == s.clock && end == end1
      && s.log + Calls(fired, s.clock) == s1.log + Calls(fired1, s.clock)
  {
    var shard := s.shards[s.phase.shard];
    var rest := Processed(RootTaken(shard), s.phase.now, []);
    if shard.heap[0].cancelled {
      assert Processed(shard, s.phase.now, []) == rest;
    } else {
      var fired := [shard.heap[0]] + rest.1;
      assert Processed(shard, s.phase.now, []) == (rest.0, fired);
      assert fired[0] == shard.heap[0] && fired[1..] == rest.1;
    }
  }

  predicate NoneBefore(s: State, i: nat, id: nat) {
    forall j: nat | j < i :: !InShard(s, j, id)
  }

  class TimerThread {
    const shards: seq<Shard>
    var nextId: nat
    var assignments: nat     // calls that shard_assign_ has counted
    ghost var run: State

    predicate DistinctShards() {
      forall i, j | 0 <= i < j < |shards| :: shards[i] != shards[j]
    }

    ghost predicate Valid()
      reads this, shards
    {
      && 0 < |shards| <= 256 && DistinctShards()
      && run.shards == ViewsOf(shards) && run.nextId == nextId
    }

    // The constructor and Init.
    constructor (workerCount: int, clock: int)
      ensures Valid() && fresh(shards)
      ensures |shards| == if workerCount <= 0 then 1 else if workerCount < 256 then workerCount else 256
      ensures run == Start(|shards|, clock) && assignments == 0
    {
      var n: nat := if workerCount <= 0 then 1 else if workerCount < 256 then workerCount else 256;
      var made: seq<Shard> := [];
      for k := 0 to n
        invariant |made| == k && fresh(made)
        invariant forall i | 0 <= i < k :: made[i].View() == ShardState([], NEVER)
        invariant forall i, j | 0 <= i < j < k :: made[i] != made[j]
      {
        var shard := new Shard();
        made := made + [shard];
      }
      shards, nextId, assignments := made, 0, 0;
      run := Start(n, clock);
      new;
      assert run.shards == ViewsOf(shards);
    }

    method AddTo(i: nat, t: Timer)
      requires DistinctShards() && i < |shards|
      modifies shards[i]
      ensures ViewsOf(shards) == old(ViewsOf(shards))[i := Added(old(ViewsOf(shards)[i]), t)]
    {
      shards[i].Add(t);
      assert forall j | 0 <= j < |shards| && j != i :: shards[j].View() == old(shards[j].View());
    }

    method MarkIn(i: nat, id: nat) returns (found: bool)
      requires DistinctShards() && i < |shards|
      modifies shards[i]
      ensures ViewsOf(shards) == old(ViewsOf(shards))[i := Marked(old(ViewsOf(shards)[i]), id)]
      ensures found == HasId(old(ViewsOf(shards)[i]).heap, id)
    {
      found := shards[i].CancelId(id);
      assert forall j | 0 <= j < |shards| && j != i :: shards[j].View() == old(shards[j].View());
    }

    /** A null delay is refused. Otherwise the timer enters the next shard in the round. With an
        index outside the shards, where the source's access is undefined, it enters none here. */
    method Schedule(delay: Option<Timespec>, arg: nat, clock: int) returns (id: int)
      requires Valid()
      modifies this, shards
      ensures Valid()
      ensures delay.None? ==>
        id == -1 && run == old(run) && assignments == old(assignments)
      ensures delay.Some? ==>
        && id == old(nextId) && assignments == old(assignments) + 1
        && var deadline, shard := clock + DelayUs(delay.value), Assigned(old(assignments), |shards|);
          run == if 0 <= shard < |shards| then Scheduled(old(run), deadline, arg, shard)
                 else Apply(old(run), DrawId(deadline, arg))
    {
      if delay.None? {
        return -1;
      }
      var deadline := clock + DelayUs(delay.value);
      var shard := Assigned(assignments, |shards|);
      assignments := assignments + 1;
      if 0 <= shard < |shards| {
        id := Enter(deadline, arg, shard);
      } else {
        id := DrawOnly(deadline, arg);
      }
    }

    // A timer that enters no shard.
    method DrawOnly(deadline: int, arg: nat) returns (id: nat)
      requires Valid()
      modifies this`nextId, this`run
      ensures Valid() && id == old(nextId) && run == Apply(old(run), DrawId(deadline, arg))
    {
      id := nextId;
      nextId := nextId + 1;
      run := Apply(run, DrawId(deadline, arg));
    }

    method Enter(deadline: int, arg: nat, shard: nat) returns (id: nat)
      requires Valid() && shard < |shards|
      modifies this`nextId, this`run, shards[shard]
      ensures Valid() && id == old(nextId)
      ensures run == Scheduled(old(run), deadline, arg, shard)
    {
      id := nextId;
      nextId := nextId + 1;
      AddTo(shard, Timer(id, deadline, arg, false));
      ScheduledAdds(run, deadline, arg, shard);
      run := Scheduled(run, deadline, arg, shard);
    }

    /** True exactly when some shard holds the id; then the first such entry is marked and
        nothing else changes. */
    method Cancel(id: nat) returns (found: bool, ghost at: nat)
      requires Valid()
      modifies this`run, shards
      ensures Valid() && nextId == old(nextId)
      ensures found <==> exists i: nat :: InShard(old(run), i, id)
      ensures found ==> InShard(old(run), at, id) && NoneBefore(old(run), at, id)
      ensures run == if found then Apply(old(run), CancelIn(at, id)) else old(run)
    {
      found, at := Sweep(id);
      if found {
        run := Apply(run, CancelIn(at, id));
      }
    }

    // The shards one after the other, up to the first that holds the id.
    method Sweep(id: nat) returns (found: bool, ghost at: nat)
      requires Valid()
      modifies shards
      ensures NoneBefore(run, at, id)
      ensures if found
        then InShard(run, at, id) && ViewsOf(shards) == run.shards[at := Marked(run.shards[at], id)]
        else at == |shards| && ViewsOf(shards) == run.shards
    {
      var i := 0;
      while i < |shards|
        invariant 0 <= i <= |shards| && ViewsOf(shards) == run.shards && NoneBefore(run, i, id)
      {
        var hit := MarkIn(i, id);
        if hit {
          return true, i;
        }
        MarkCancelledAbsent(run.shards[i].heap, id);
        i := i + 1;
      }
      return false, i;
    }
  }

  // ---- A pass over the shards ----

  /** What goes on while the thread is at one shard: the clock when it processes it, the visits to
      it between the look at its cached deadline and the lock and in each dropping of the lock,
      and the visits to any shards at that time. Visits to other shards do not touch this one, so
      that they may stand after its processing. */
  datatype Round = Round(clock: int, entering: seq<Visit>, windows: seq<seq<Visit>>, elsewhere: seq<(nat, Visit)>)

  // The visits to shard j.
  function To(visits: seq<(nat, Visit)>, j: nat): seq<Visit> {
    if visits == [] then [] else (if visits[0].0 == j then [visits[0].1] else []) + To(visits[1..], j)
  }

  function Elsewhere(rounds: seq<Round>, j: nat): seq<Visit> {
    if rounds == [] then [] else Elsewhere(rounds[..|rounds| - 1], j) + To(rounds[|rounds| - 1].elsewhere, j)
  }

  // A shard when the thread leaves it, and what it fired there.
  function LeftAs(s: ShardState, now: int, r: Round): (ShardState, seq<Timer>) {
    if s.nextDeadline <= now then Processed(VisitedBy(s, r.entering), r.clock, r.windows) else (s, [])
  }

  // The shard j, of which the pass started from s, when the thread comes to it, and after i rounds.
  function Reached(s: ShardState, rounds: seq<Round>, j: nat): ShardState
    requires j <= |rounds|
  {
    VisitedBy(s, Elsewhere(rounds[..j], j))
  }

  function AfterRounds(s: ShardState, now: int, rounds: seq<Round>, j: nat, i: nat): ShardState
    requires j < |rounds| && i <= |rounds|
  {
    if i <= j then VisitedBy(s, Elsewhere(rounds[..i], j))
    else VisitedBy(LeftAs(Reached(s, rounds, j), now, rounds[j]).0, Elsewhere(rounds[j..i], j))
  }

  lemma ElsewhereSnoc(rounds: seq<Round>, lo: nat, i: nat, j: nat)
    requires lo <= i < |rounds|
    ensures Elsewhere(rounds[lo..i + 1], j) == Elsewhere(rounds[lo..i], j) + To(rounds[i].elsewhere, j)
  {
    assert rounds[lo..i + 1][..i - lo] == rounds[lo..i];
  }

  lemma RoundsNext(s: ShardState, now: int, rounds: seq<Round>, j: nat, i: nat)
    requires j < |rounds| && i < |rounds|
    ensures var here := AfterRounds(s, now, rounds, j, i);
      AfterRounds(s, now, rounds, j, i + 1) ==
        VisitedBy(if i == j then LeftAs(here, now, rounds[i]).0 else here, To(rounds[i].elsewhere, j))
  {
    var lo := if i < j then 0 else j;
    ElsewhereSnoc(rounds, lo, i, j);
    if i < j {
      VisitedByConcat(s, Elsewhere(rounds[..i], j), To(rounds[i].elsewhere, j));
    } else {
      VisitedByConcat(LeftAs(Reached(s, rounds, j), now, rounds[j]).0, Elsewhere(rounds[j..i], j), To(rounds[i].elsewhere, j));
    }
  }

  lemma LeavesNothingDue(s: ShardState, now: int, r: Round)
    requires ShardInv(s) && now <= r.clock
    ensures ShardInv(LeftAs(s, now, r).0) && Covers(now + 1, LeftAs(s, now, r).0.heap)
    ensures if s.nextDeadline <= now then Covers(r.clock + 1, LeftAs(s, now, r).0.heap) else LeftAs(s, now, r) == (s, [])
  {
    if s.nextDeadline <= now {
      VisitedByKeepsInv(s, r.entering);
      ProcessedLeavesNothingDue(VisitedBy(s, r.entering), r.clock, r.windows);
    }
  }

  predicate Different(shards: seq<Shard>) {
    forall i, j | 0 <= i < j < |shards| :: shards[i] != shards[j]
  }

  method VisitOne(shards: seq<Shard>, i: nat, v: Visit)
    requires Different(shards)
    modifies shards
    ensures forall j | 0 <= j < |shards| ::
      shards[j].View() == if j == i then Visited(old(shards[j].View()), v) else old(shards[j].View())
  {
    if i < |shards| {
      shards[i].Window([v]);
    }
  }

  lemma ToNext(s: ShardState, visits: seq<(nat, Visit)>, k: nat, j: nat)
    requires k < |visits|
    ensures VisitedBy(s, To(visits[k..], j)) ==
      VisitedBy(if j == visits[k].0 then Visited(s, visits[k].1) else s, To(visits[k + 1..], j))
  {
    var v, rest := visits[k].1, To(visits[k + 1..], j);
    assert visits[k..][0] == visits[k] && visits[k..][1..] == visits[k + 1..];
    assert ([v] + rest)[1..] == rest && [] + rest == rest;
  }

  // Other calls' visits to the shards.
  method VisitAll(shards: seq<Shard>, visits: seq<(nat, Visit)>)
    requires Different(shards)
    modifies shards
    ensures forall j | 0 <= j < |shards| :: shards[j].View() == VisitedBy(old(shards[j].View()), To(visits, j))
  {
    assert visits[0..] == visits;
    for k := 0 to |visits|
      invariant forall j | 0 <= j < |shards| ::
        VisitedBy(shards[j].View(), To(visits[k..], j)) == VisitedBy(old(shards[j].View()), To(visits, j))
    {
      forall j | 0 <= j < |shards|
        ensures VisitedBy(shards[j].View(), To(visits[k..], j)) ==
          VisitedBy(if j == visits[k].0 then Visited(shards[j].View(), visits[k].1) else shards[j].View(), To(visits[k + 1..], j))
      {
        ToNext(shards[j].View(), visits, k, j);
      }
      VisitOne(shards, visits[k].0, visits[k].1);
    }
  }

  // The thread at one shard.
  method AtShard(shards: seq<Shard>, i: nat, now: int, r: Round) returns (fired: seq<Timer>)
    requires Different(shards) && i < |shards|
    modifies shards[i]
    ensures (shards[i].View(), fired) == LeftAs(old(shards[i].View()), now, r)
  {
    if shards[i].nextDeadline <= now {
      shards[i].Window(r.entering);
      fired := shards[i].ProcessShard(r.clock, r.windows);
    } else {
      fired := [];
    }
  }

  // The shards after i rounds of a pass that began with the given ones.
  ghost predicate AfterRoundsAll(shards: seq<Shard>, views: seq<ShardState>, now: int, rounds: seq<Round>, i: nat)
    requires i <= |rounds| == |shards| == |views|
    reads shards
  {
    forall j | 0 <= j < |shards| :: shards[j].View() == AfterRounds(views[j], now, rounds, j, i)
  }

  method OneRound(shards: seq<Shard>, ghost views: seq<ShardState>, now: int, rounds: seq<Round>, i: nat)
    returns (fired: seq<Timer>)
    requires i < |rounds| == |shards| == |views| && Different(shards) && AfterRoundsAll(shards, views, now, rounds, i)
    modifies shards
    ensures AfterRoundsAll(shards, views, now, rounds, i + 1)
    ensures fired == FiredAt(views[i], now, rounds, i)
  {
    fired := AtShard(shards, i, now, rounds[i]);
    VisitAll(shards, rounds[i].elsewhere);
    forall j | 0 <= j < |shards| ensures shards[j].View() == AfterRounds(views[j], now, rounds, j, i + 1) {
      RoundsNext(views[j], now, rounds, j, i);
    }
  }

  lemma PassLeaves(s: ShardState, now: int, rounds: seq<Round>, j: nat)
    requires j < |rounds| && ShardInv(s) && now <= rounds[j].clock
    ensures var left := LeftAs(Reached(s, rounds, j), now, rounds[j]).0;
      && AfterRounds(s, now, rounds, j, |rounds|) == VisitedBy(left, Elsewhere(rounds[j..], j))
      && ShardInv(left) && Covers(now + 1, left.heap)
      && (if Reached(s, rounds, j).nextDeadline <= now then Covers(rounds[j].clock + 1, left.heap)
          else left == Reached(s, rounds, j) && FiredAt(s, now, rounds, j) == [])
  {
    VisitedByKeepsInv(s, Elsewhere(rounds[..j], j));
    LeavesNothingDue(Reached(s, rounds, j), now, rounds[j]);
    assert rounds[j..|rounds|] == rounds[j..];
  }

  // What a pass comes to for a shard that it found as s.
  predicate PassedBy(s: ShardState, s': ShardState, fired: seq<Timer>, now: int, rounds: seq<Round>, j: nat)
    requires j < |rounds|
  {
    var (left, calls) := LeftAs(Reached(s, rounds, j), now, rounds[j]);
    && s' == VisitedBy(left, Elsewhere(rounds[j..], j)) && fired == calls
    && ShardInv(left) && Covers(now + 1, left.heap)
    && (if Reached(s, rounds, j).nextDeadline <= now then Covers(rounds[j].clock + 1, left.heap)
        else left == Reached(s, rounds, j) && fired == [])
  }

  // What a pass that found shard j as s has fired there.
  function FiredAt(s: ShardState, now: int, rounds: seq<Round>, j: nat): seq<Timer>
    requires j < |rounds|
  {
    LeftAs(Reached(s, rounds, j), now, rounds[j]).1
  }

  predicate FiredSoFar(views: seq<ShardState>, fired: seq<seq<Timer>>, now: int, rounds: seq<Round>) {
    |fired| <= |views| == |rounds| && forall j | 0 <= j < |fired| :: fired[j] == FiredAt(views[j], now, rounds, j)
  }

  lemma FiredOneMore(views: seq<ShardState>, fired: seq<seq<Timer>>, f: seq<Timer>, now: int, rounds: seq<Round>)
    requires FiredSoFar(views, fired, now, rounds) && |fired| < |views| && f == FiredAt(views[|fired|], now, rounds, |fired|)
    ensures FiredSoFar(views, fired + [f], now, rounds)
  {
  }

  ghost predicate PassedAll(shards: seq<Shard>, views: seq<ShardState>, fired: seq<seq<Timer>>, now: int, rounds: seq<Round>)
    requires |rounds| == |shards| == |views| == |fired|
    reads shards
  {
    forall j | 0 <= j < |shards| :: PassedBy(views[j], shards[j].View(), fired[j], now, rounds, j)
  }

  lemma PassEnds(shards: seq<Shard>, views: seq<ShardState>, fired: seq<seq<Timer>>, now: int, rounds: seq<Round>)
    requires |rounds| == |shards| == |views| == |fired| && AfterRoundsAll(shards, views, now, rounds, |rounds|)
    requires FiredSoFar(views, fired, now, rounds)
    requires forall j | 0 <= j < |shards| :: ShardInv(views[j]) && now <= rounds[j].clock
    ensures PassedAll(shards, views, fired, now, rounds)
  {
    forall j | 0 <= j < |shards| ensures PassedBy(views[j], shards[j].View(), fired[j], now, rounds, j) {
      PassLeaves(views[j], now, rounds, j);
    }
  }

  /** One pass of the main loop over the shards, with others' visits to any shard at any time: a
      shard is processed exactly when its cached deadline has come, and when the thread leaves it, it
      holds no entry that was due when the pass began, nor, if it was processed, when that began. */
  method Pass(shards: seq<Shard>, now: int, rounds: seq<Round>) returns (fired: seq<seq<Timer>>)
    requires |rounds| == |shards| && Different(shards)
    requires forall i | 0 <= i < |shards| :: ShardInv(shards[i].View()) && now <= rounds[i].clock
    modifies shards
    ensures |fired| == |shards|
    ensures PassedAll(shards, old(ViewsOf(shards)), fired, now, rounds)
  {
    fired := [];
    ghost var views := ViewsOf(shards);
    assert AfterRoundsAll(shards, views, now, rounds, 0);
    for i := 0 to |shards|
      invariant |fired| == i && AfterRoundsAll(shards, views, now, rounds, i)
      invariant FiredSoFar(views, fired, now, rounds)
    {
      var f := OneRound(shards, views, now, rounds, i);
      FiredOneMore(views, fired, f, now, rounds);
      fired := fired + [f];
    }
    PassEnds(shards, views, fired, now, rounds);
  }
}
