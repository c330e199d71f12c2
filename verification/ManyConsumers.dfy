/**
 A shard of the global queue under several consumers. The shard is a queue for one consumer,
 but a worker whose own shard is empty pops from the others', so two calls of Pop can overlap
 in it. Each consumer is where its own call stands; the queue's words are shared. The histories
 `queue` and `lost` of the queue are kept as if there were one consumer, and mean something only
 as long as calls do not overlap; `order` and `returned` always do.
 */
module ManyConsumers {
  import opened Options
  import Q = MpscQueue

  type ConsumerId = nat

  // `queue.pop` is not used.
  datatype State = State(queue: Q.State, calls: map<ConsumerId, Q.PopPhase>)

  datatype Action = Produce(a: Q.Action) | Consume(id: ConsumerId)

  const Empty := State(Q.Empty, map[])

  function CallOf(s: State, id: ConsumerId): Q.PopPhase {
    if id in s.calls then s.calls[id] else Q.Idle
  }

  // A push may not start on a node that some consumer has in its hand.
  predicate MayProduce(s: State, a: Q.Action) {
    !a.PopStep? && (a.PushClear? ==> forall id | id in s.calls :: a.x !in Q.Hand(s.calls[id]))
  }

  // One access of a consumer's call.
  function ConsumeNext(s: State, id: ConsumerId): State {
    var q := Q.PopNext(s.queue.(pop := CallOf(s, id)));
    State(q.(pop := Q.Idle), s.calls[id := q.pop])
  }

  function Apply(s: State, a: Action): State {
    match a
    case Produce(p) => if MayProduce(s, p) then s.(queue := Q.Apply(s.queue, p)) else s
    case Consume(id) => ConsumeNext(s, id)
  }

  function RunFrom(s: State, run: seq<Action>): State
    decreases |run|
  {
    if run == [] then s else RunFrom(Apply(s, run[0]), run[1..])
  }

  function After(run: seq<Action>): State {
    RunFrom(Empty, run)
  }

  // ---- Calls that do not overlap ----

  predicate OthersIdle(s: State, id: ConsumerId) {
    forall other | other in s.calls && other != id :: s.calls[other].Idle?
  }

  // A consumer in a call is alone in the shard; one that finds the tail null is in none.
  predicate OneAtATime(s: State, run: seq<Action>)
    decreases |run|
  {
    run == [] ||
    ((run[0].Consume? ==> OthersIdle(s, run[0].id) || (CallOf(s, run[0].id).Idle? && s.queue.tail.None?))
     && OneAtATime(Apply(s, run[0]), run[1..]))
  }

  // The state with one consumer that this state stands for.
  predicate StandsFor(s: State, q: Q.State) {
    && s.queue == q.(pop := Q.Idle)
    && (forall id | id in s.calls :: s.calls[id].Idle? || s.calls[id] == q.pop)
    && (forall i, j | i in s.calls && j in s.calls && !s.calls[i].Idle? && !s.calls[j].Idle? :: i == j)
    && (!q.pop.Idle? ==> exists id :: id in s.calls && s.calls[id] == q.pop)
  }

  lemma ProduceStandsFor(s: State, q: Q.State, a: Q.Action)
    requires StandsFor(s, q) && MayProduce(s, a)
    ensures StandsFor(Apply(s, Produce(a)), Q.Apply(q, a))
  {
  }

  lemma ConsumeStandsFor(s: State, q: Q.State, id: ConsumerId)
    requires StandsFor(s, q) && OthersIdle(s, id)
    ensures StandsFor(Apply(s, Consume(id)), Q.Apply(q, Q.PopStep))
  {
    var s' := Apply(s, Consume(id));
    assert CallOf(s, id) == q.pop;
    assert s.queue.(pop := q.pop) == q;
    assert id in s'.calls && s'.calls[id] == Q.Apply(q, Q.PopStep).pop;
  }

  lemma NothingStandsFor(s: State, q: Q.State, id: ConsumerId)
    requires StandsFor(s, q) && CallOf(s, id).Idle? && s.queue.tail.None?
    ensures StandsFor(Apply(s, Consume(id)), q)
  {
    if !q.pop.Idle? {
      var other :| other in s.calls && s.calls[other] == q.pop;
      assert other in Apply(s, Consume(id)).calls && Apply(s, Consume(id)).calls[other] == q.pop;
    }
  }

  lemma {:induction false} RunStandsFor(s: State, q: Q.State, run: seq<Action>) returns (single: seq<Q.Action>)
    requires StandsFor(s, q) && OneAtATime(s, run)
    ensures StandsFor(RunFrom(s, run), Q.RunFrom(q, single))
    decreases |run|
  {
    if run == [] {
      single := [];
    } else {
      var s' := Apply(s, run[0]);
      if run[0].Consume? && OthersIdle(s, run[0].id) {
        ConsumeStandsFor(s, q, run[0].id);
        var rest := RunStandsFor(s', Q.Apply(q, Q.PopStep), run[1..]);
        single := [Q.PopStep] + rest;
      } else if run[0].Produce? && MayProduce(s, run[0].a) {
        ProduceStandsFor(s, q, run[0].a);
        var rest := RunStandsFor(s', Q.Apply(q, run[0].a), run[1..]);
        single := [run[0].a] + rest;
      } else {
        if run[0].Consume? {
          NothingStandsFor(s, q, run[0].id);
        }
        single := RunStandsFor(s', q, run[1..]);
      }
    }
  }

  /** As long as calls of Pop do not overlap in the shard, any number of consumers take turns as
      one: the words are those of a run with a single consumer, and what has been returned, by
      all of them together, is a prefix of the head-exchange order. */
  lemma OneAtATimeIsOneConsumer(run: seq<Action>) returns (single: seq<Q.Action>)
    requires OneAtATime(Empty, run)
    ensures StandsFor(After(run), Q.After(single))
    ensures After(run).queue.returned <= After(run).queue.order
  {
    single := RunStandsFor(Empty, Q.Empty, run);
    Q.FifoAlways(single);
  }

  // ---- Calls that overlap ----

  lemma FirstStep(s: State, a: Action, rest: seq<Action>)
    ensures RunFrom(s, [a] + rest) == RunFrom(Apply(s, a), rest)
  {
    assert ([a] + rest)[1..] == rest;
  }

  // A call's two accesses, before the rest of a run.
  function Pair(id: ConsumerId, rest: seq<Action>): seq<Action> {
    [Consume(id)] + ([Consume(id)] + rest)
  }

  lemma PairThen(s: State, id: ConsumerId, rest: seq<Action>)
    ensures RunFrom(s, Pair(id, rest)) == RunFrom(Apply(Apply(s, Consume(id)), Consume(id)), rest)
  {
    FirstStep(s, Consume(id), [Consume(id)] + rest);
    FirstStep(Apply(s, Consume(id)), Consume(id), rest);
  }

  // A node's push, undisturbed, before the rest of a run.
  function Push(x: Q.Node, rest: seq<Action>): seq<Action> {
    [Produce(Q.PushClear(x))] + ([Produce(Q.PushExchange(x))] + ([Produce(Q.PushLink(x))] + rest))
  }

  function Pushed(s: Q.State, x: Q.Node): Q.State {
    Q.State(Some(x), if s.head.None? then Some(x) else s.tail,
            if s.head.Some? then (s.next - {x})[s.head.value := x] else s.next - {x},
            s.pushing, s.pop, s.queue + [x], s.order + [x], s.returned, s.lost)
  }

  lemma PushThen(s: State, x: Q.Node, rest: seq<Action>)
    requires s.calls == map[] && x !in s.queue.pushing && x !in s.queue.queue && s.queue.pop.Idle? && s.queue.head != Some(x)
    ensures RunFrom(s, Push(x, rest)) == RunFrom(State(Pushed(s.queue, x), map[]), rest)
  {
    var clear, exchange, link := Produce(Q.PushClear(x)), Produce(Q.PushExchange(x)), Produce(Q.PushLink(x));
    PushLands(s, x);
    FirstStep(s, clear, [exchange] + ([link] + rest));
    FirstStep(Apply(s, clear), exchange, [link] + rest);
    FirstStep(Apply(Apply(s, clear), exchange), link, rest);
  }

  lemma PushLands(s: State, x: Q.Node)
    requires s.calls == map[] && x !in s.queue.pushing && x !in s.queue.queue && s.queue.pop.Idle? && s.queue.head != Some(x)
    ensures Apply(Apply(Apply(s, Produce(Q.PushClear(x))), Produce(Q.PushExchange(x))), Produce(Q.PushLink(x)))
      == State(Pushed(s.queue, x), map[])
  {
    var q := Q.Apply(Q.Apply(s.queue, Q.PushClear(x)), Q.PushExchange(x));
    assert q.pushing == s.queue.pushing[x := Q.Exchanged(s.queue.head)];
    assert q.pushing - {x} == s.queue.pushing;
  }

  // Queues of one, two and three nodes.
  const One := Q.State(Some(1), Some(1), map[], map[], Q.Idle, [1], [1], [], false)
  const Two := Q.State(Some(2), Some(1), map[1 := 2], map[], Q.Idle, [1, 2], [1, 2], [], false)
  const Three := Q.State(Some(3), Some(1), map[1 := 2, 2 := 3], map[], Q.Idle, [1, 2, 3], [1, 2, 3], [], false)

  lemma PushedThree()
    ensures Pushed(Q.Empty, 1) == One && Pushed(One, 2) == Two && Pushed(Two, 3) == Three
  {
    assert (map[] - {2})[1 := 2] == map[1 := 2];
    assert (map[1 := 2] - {3})[2 := 3] == map[1 := 2, 2 := 3];
  }

  lemma PushThree(rest: seq<Action>)
    ensures RunFrom(Empty, Push(1, Push(2, Push(3, rest)))) == RunFrom(State(Three, map[]), rest)
  {
    PushedThree();
    PushThen(Empty, 1, Push(2, Push(3, rest)));
    PushThen(State(One, map[]), 2, Push(3, rest));
    PushThen(State(Two, map[]), 3, rest);
  }

  // What two accesses of a call do that finds a link, and what the two do that end it.
  lemma Look(s: State, id: ConsumerId, t: Q.Node)
    requires CallOf(s, id).Idle? && s.queue.pop.Idle? && s.queue.tail == Some(t) && t in s.queue.next
    ensures Apply(Apply(s, Consume(id)), Consume(id)) == s.(calls := s.calls[id := Q.Advancing(t, s.queue.next[t])])
  {
    var s1 := Apply(s, Consume(id));
    assert s1 == s.(calls := s.calls[id := Q.Inspecting(t)]);
    assert s1.calls[id := Q.Advancing(t, s.queue.next[t])] == s.calls[id := Q.Advancing(t, s.queue.next[t])];
  }

  lemma Take(s: State, id: ConsumerId, t: Q.Node, n: Q.Node)
    requires id in s.calls && s.calls[id] == Q.Advancing(t, n) && s.queue.pop.Idle?
    ensures Apply(Apply(s, Consume(id)), Consume(id)) ==
      State(s.queue.(tail := Some(n), queue := Q.Rest(s.queue.queue), next := s.queue.next - {t},
                     returned := s.queue.returned + [t]),
            s.calls[id := Q.Idle])
  {
    var s1 := Apply(s, Consume(id));
    assert s1 == State(s.queue.(tail := Some(n), queue := Q.Rest(s.queue.queue)), s.calls[id := Q.Releasing(t)]);
    assert s1.calls[id := Q.Idle] == s.calls[id := Q.Idle];
  }

  // The queue after nodes have been returned, in that order, and consumer 0's call.
  function Left(tail: Q.Node, queue: seq<Q.Node>, next: map<Q.Node, Q.Node>, returned: seq<Q.Node>): Q.State {
    Q.State(Some(3), Some(tail), next, map[], Q.Idle, queue, [1, 2, 3], returned, false)
  }

  const Late := Q.Advancing(1, 2)

  lemma TakeOne(s: State)
    requires s == State(Three, map[0 := Late])
    ensures var s' := Apply(Apply(Apply(Apply(s, Consume(1)), Consume(1)), Consume(1)), Consume(1));
      s' == State(Left(2, [2, 3], map[2 := 3], [1]), map[0 := Late, 1 := Q.Idle])
  {
    Look(s, 1, 1);
    Take(Apply(Apply(s, Consume(1)), Consume(1)), 1, 1, 2);
    assert map[1 := 2, 2 := 3] - {1} == map[2 := 3];
  }

  lemma TakeTwo(s: State)
    requires s == State(Left(2, [2, 3], map[2 := 3], [1]), map[0 := Late, 1 := Q.Idle])
    ensures var s' := Apply(Apply(Apply(Apply(s, Consume(1)), Consume(1)), Consume(1)), Consume(1));
      s' == State(Left(3, [3], map[], [1, 2]), map[0 := Late, 1 := Q.Idle])
  {
    Look(s, 1, 2);
    Take(Apply(Apply(s, Consume(1)), Consume(1)), 1, 2, 3);
    assert map[2 := 3] - {2} == map[];
  }

  lemma TakeLate(s: State)
    requires s == State(Left(3, [3], map[], [1, 2]), map[0 := Late, 1 := Q.Idle])
    ensures Apply(Apply(s, Consume(0)), Consume(0)) == State(Left(2, [], map[], [1, 2, 1]), map[0 := Q.Idle, 1 := Q.Idle])
  {
    Take(s, 0, 1, 2);
  }

  const Doubled := State(Left(2, [], map[], [1, 2, 1]), map[0 := Q.Idle, 1 := Q.Idle])

  lemma Overlap(pops: seq<Action>)
    requires pops == Pair(0, Pair(1, Pair(1, Pair(1, Pair(1, Pair(0, []))))))
    ensures RunFrom(State(Three, map[]), pops) == Doubled
  {
    var s0 := State(Three, map[]);
    Look(s0, 0, 1);
    var s1 := State(Three, map[0 := Late]);
    PairThen(s0, 0, Pair(1, Pair(1, Pair(1, Pair(1, Pair(0, []))))));
    TakeOne(s1);
    PairThen(s1, 1, Pair(1, Pair(1, Pair(1, Pair(0, [])))));
    PairThen(Apply(Apply(s1, Consume(1)), Consume(1)), 1, Pair(1, Pair(1, Pair(0, []))));
    var s2 := State(Left(2, [2, 3], map[2 := 3], [1]), map[0 := Late, 1 := Q.Idle]);
    TakeTwo(s2);
    PairThen(s2, 1, Pair(1, Pair(0, [])));
    PairThen(Apply(Apply(s2, Consume(1)), Consume(1)), 1, Pair(0, []));
    var s3 := State(Left(3, [3], map[], [1, 2]), map[0 := Late, 1 := Q.Idle]);
    TakeLate(s3);
    PairThen(s3, 0, []);
  }

  // The tail names a node without a link that is not the head's, and no call is past it.
  predicate Stuck(s: State, t: Q.Node) {
    && s.queue.tail == Some(t) && s.queue.head.Some? && s.queue.head != Some(t) && t !in s.queue.next
    && forall id | id in s.calls :: Waits(s.calls[id], t)
  }

  predicate Waits(p: Q.PopPhase, t: Q.Node) {
    p == Q.Idle || p == Q.Inspecting(t) || p == Q.Claiming(t) || p == Q.CheckingTail(t) || p == Q.CheckingHead(t)
    || (p.Spinning? && p.t == t)
  }

  lemma StuckStep(s: State, id: ConsumerId, t: Q.Node)
    requires Stuck(s, t)
    ensures Stuck(ConsumeNext(s, id), t) && ConsumeNext(s, id).queue.returned == s.queue.returned
  {
    var p := CallOf(s, id);
    assert Waits(p, t);
    assert Waits(Q.PopNext(s.queue.(pop := p)).pop, t);
  }

  lemma {:induction false} StuckStays(s: State, run: seq<Action>, t: Q.Node)
    requires Stuck(s, t) && forall a | a in run :: a.Consume?
    ensures Stuck(RunFrom(s, run), t) && RunFrom(s, run).queue.returned == s.queue.returned
    decreases |run|
  {
    if run != [] {
      assert run[0] in run;
      StuckStep(s, run[0].id, t);
      StuckStays(Apply(s, run[0]), run[1..], t);
    }
  }

  /** When two calls overlap: consumer 0 has read the first node and its link, consumer 1 pops
      twice, and consumer 0 goes on. Node 1 is returned twice, and node 3 never again, however
      often and by how many consumers Pop is called. */
  lemma OverlapDoublesAndStrands(run: seq<Action>, pops: seq<Action>, more: seq<Action>)
    requires pops == Pair(0, Pair(1, Pair(1, Pair(1, Pair(1, Pair(0, []))))))
    requires run == Push(1, Push(2, Push(3, pops))) && forall a | a in more :: a.Consume?
    ensures var s := After(run);
      && s.queue.order == [1, 2, 3] && s.queue.returned == [1, 2, 1] && s.queue.pushing == map[]
      && (forall id | id in s.calls :: s.calls[id].Idle?)
      && RunFrom(s, more).queue.returned == [1, 2, 1]
  {
    Overlap(pops);
    DoubledBy(run, pops);
    StuckStays(Doubled, more, 2);
  }

  lemma DoubledBy(run: seq<Action>, pops: seq<Action>)
    requires run == Push(1, Push(2, Push(3, pops))) && RunFrom(State(Three, map[]), pops) == Doubled
    ensures After(run) == Doubled
  {
    PushThree(pops);
  }
}
