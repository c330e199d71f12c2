/**
 The deque as the scheduler's runs see it. `WorkerRuns` has a deque as the sequence of tasks that
 can be reached in it; here its operations are those that undisturbed calls on the ring make.
 */
module DequeView {
  import opened WorkStealing
  import WorkerRuns

  // What can be reached: nothing in a ring whose indices are equal.
  function Reachable(s: State): seq<Task> {
    if s.head.low == s.tail.low then [] else s.contents
  }

  /** Between calls the sequence is the ring's contents, and a push does to it what `Pushed` does,
      losing sight of all tasks exactly from 1023 on. */
  lemma PushIsPushed(run: seq<Action>, x: Task)
    requires After(run).fault.None? && After(run).owner.Resting?
    ensures var s, s' := After(run), OwnerNext(Apply(After(run), StartPush(x))); var q := s.contents;
      && Reachable(s) == q && |q| <= 1023 && s'.owner.Resting? && s'.contents == q + [x]
      && s'.tail.high == (s.tail.high + 1) % 0x1_0000_0000
      && Reachable(s') == WorkerRuns.Pushed(q, x) == if |q| < 1023 then q + [x] else []
  {
    InvAlways(Fresh(), run);
    ReachesContents(After(run));
    PushMovesTail(After(run), x);
  }

  /** A pop takes the last task of the sequence, and a steal the first. */
  lemma PopAndStealTakeEnds(run: seq<Action>, id: ThiefId)
    requires After(run).fault.None? && After(run).owner.Resting? && id !in After(run).thieves
    ensures var q := Reachable(After(run));
      && Reachable(PopAccesses(After(run))) == (if q == [] then [] else WorkerRuns.Init(q))
      && (q != [] ==> PopAccesses(After(run)).taken == After(run).taken + multiset{WorkerRuns.Last(q)})
      && (q != [] ==> Reachable(FourSteps(After(run), id)) == q[1..])
      && (q != [] ==> FourSteps(After(run), id).taken == After(run).taken + multiset{q[0]})
  {
    var s := After(run);
    InvAlways(Fresh(), run);
    PopUndisturbed(run);
    StealUndisturbed(run, id);
    ReachesContents(s);
    ReachesContents(PopAccesses(s));
    if s.contents != [] {
      ReachesContents(FourSteps(s, id));
    }
  }

  lemma ReachesContents(s: State)
    requires Good(s)
    ensures Reachable(s) == s.contents
  {
    RingFullWraps(s.headCount, |s.contents|);
  }
}
