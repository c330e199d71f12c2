/**
 The intrusive queue with many producers and one consumer, at the granularity of its
 atomic accesses.

 A producer is named by the node it is pushing: the queue is intrusive, so a node is in
 at most one `Push` at a time, and any number of them can be under way. `RunFrom`
 executes any sequence of atomic accesses of producers and consumer; an access that the
 named thread is not about to make leaves the state as it is, so every sequence is an
 interleaving.
 */
module MpscQueue {
  import opened Options
  import opened Weaving

  type Node = nat

  const MAX_PAUSE_SPINS := 100
  const MAX_YIELD_SPINS := 10

  // What a running Push has done: cleared its link, or exchanged the head for its node.
  datatype PushPhase = Cleared | Exchanged(prev: Option<Node>)

  // What the consumer does next.
  datatype PopPhase =
    | Idle                                        // load tail
    | Inspecting(t: Node)                         // load t's link
    | Claiming(t: Node)                           // CAS head from t to null
    | Resetting(t: Node)                          // store null in tail
    | Spinning(t: Node, pauseCount: nat, yieldCount: nat) // load t's link again
    | CheckingTail(t: Node)                       // timed out: load tail
    | CheckingHead(t: Node)                       // timed out: load head
    | Advancing(t: Node, n: Node)                 // store n in tail
    | Releasing(t: Node)                          // clear t's link and return t

  /** `next` has no entry for a null link. `queue` holds the nodes that are in the queue,
      oldest first; `order` is the head-exchange order, `returned` what Pop has returned,
      and `lost` says that a tail reset has overwritten a producer's tail store. */
  datatype State = State(
    head: Option<Node>, tail: Option<Node>, next: map<Node, Node>,
    pushing: map<Node, PushPhase>, pop: PopPhase,
    queue: seq<Node>, order: seq<Node>, returned: seq<Node>, lost: bool)

  datatype Action = PushClear(x: Node) | PushExchange(x: Node) | PushLink(x: Node) | PopStep

  const Empty := State(None, None, map[], map[], Idle, [], [], [], false)

  // The node Pop has taken out of the queue but not yet returned.
  function Hand(p: PopPhase): seq<Node> {
    if InHand(p) then [p.t] else []
  }

  predicate InHand(p: PopPhase) {
    p.Resetting? || p.Releasing?
  }

  /** A push may start on a node that is neither in the queue, nor in the consumer's hand,
      nor being pushed: the link field lives in the node. */
  predicate Enabled(s: State, a: Action) {
    match a
    case PushClear(x) => x !in s.pushing && x !in s.queue && x !in Hand(s.pop)
    case PushExchange(x) => x in s.pushing && s.pushing[x] == Cleared
    case PushLink(x) => x in s.pushing && s.pushing[x].Exchanged?
    case PopStep => true
  }

  function PushNext(s: State, a: Action): State
    requires !a.PopStep? && Enabled(s, a)
  {
    match a
    case PushClear(x) =>
      s.(next := s.next - {x}, pushing := s.pushing[x := Cleared])
    case PushExchange(x) =>
      s.(head := Some(x), pushing := s.pushing[x := Exchanged(s.head)],
         queue := s.queue + [x], order := s.order + [x])
    case PushLink(x) =>
      var s' := s.(pushing := s.pushing - {x});
      match s.pushing[x].prev
      case Some(p) => s'.(next := s.next[p := x])
      case None => s'.(tail := Some(x))
  }

  // Where the spin loop goes after it has seen a null link.
  function SpinAgain(t: Node, pauseCount: nat, yieldCount: nat): PopPhase {
    if pauseCount < MAX_PAUSE_SPINS then Spinning(t, pauseCount + 1, yieldCount)
    else if yieldCount < MAX_YIELD_SPINS then Spinning(t, 0, yieldCount + 1)
    else CheckingTail(t)
  }

  function Rest(q: seq<Node>): seq<Node> {
    if q == [] then [] else q[1..]
  }

  function PopNext(s: State): State {
    match s.pop
    case Idle =>
      if s.tail.Some? then s.(pop := Inspecting(s.tail.value)) else s
    case Inspecting(t) =>
      s.(pop := if t in s.next then Advancing(t, s.next[t]) else Claiming(t))
    case Claiming(t) =>
      if s.head == Some(t) then s.(head := None, pop := Resetting(t), queue := Rest(s.queue))
      else s.(pop := Spinning(t, 0, 0))
    case Resetting(t) =>
      s.(tail := None, pop := Releasing(t), lost := s.lost || s.tail != Some(t))
    case Spinning(t, pauseCount, yieldCount) =>
      s.(pop := if t in s.next then Advancing(t, s.next[t]) else SpinAgain(t, pauseCount, yieldCount))
    case CheckingTail(t) =>
      s.(pop := if s.tail != Some(t) then Idle else CheckingHead(t))
    case CheckingHead(t) =>
      s.(pop := if s.head.None? then Idle else Spinning(t, 0, 0))
    case Advancing(t, n) =>
      s.(tail := Some(n), pop := Releasing(t), queue := Rest(s.queue))
    case Releasing(t) =>
      s.(next := s.next - {t}, pop := Idle, returned := s.returned + [t])
  }

  function Apply(s: State, a: Action): State {
    if !Enabled(s, a) then s
    else if a.PopStep? then PopNext(s)
    else PushNext(s, a)
  }

  function RunFrom(s: State, run: seq<Action>): State
    decreases |run|
  {
    if run == [] then s else RunFrom(Apply(s, run[0]), run[1..])
  }

  function After(run: seq<Action>): State {
    RunFrom(Empty, run)
  }

  lemma {:induction false} RunConcat(s: State, a: seq<Action>, b: seq<Action>)
    ensures RunFrom(s, a + b) == RunFrom(RunFrom(s, a), b)
    decreases |a|
  {
    if a == [] {
      assert a + b == b;
    } else {
      assert (a + b)[1..] == a[1..] + b;
      RunConcat(Apply(s, a[0]), a[1..], b);
    }
  }

  lemma RunSnoc(s: State, run: seq<Action>, a: Action)
    ensures RunFrom(s, run + [a]) == Apply(RunFrom(s, run), a)
  {
    RunConcat(s, run, [a]);
    assert RunFrom(RunFrom(s, run), [a]) == RunFrom(Apply(RunFrom(s, run), a), []);
  }

  // ---- The invariant ----

  predicate Distinct(q: seq<Node>) {
    forall i, j | 0 <= i < j < |q| :: q[i] != q[j]
  }

  // The producer of q[i] has stored its link.
  predicate LinkedAt(q: seq<Node>, next: map<Node, Node>, pushing: map<Node, PushPhase>, i: int)
    requires 0 < i < |q|
  {
    q[i] !in pushing && q[i - 1] in next && next[q[i - 1]] == q[i]
  }

  // The producer of q[i] has still to store its link.
  predicate GapAt(q: seq<Node>, next: map<Node, Node>, pushing: map<Node, PushPhase>, i: int)
    requires 0 < i < |q|
  {
    q[i] in pushing && pushing[q[i]] == Exchanged(Some(q[i - 1])) && q[i - 1] !in next
  }

  // The queue is a chain with gaps, and it ends with a null link.
  predicate Chain(q: seq<Node>, next: map<Node, Node>, pushing: map<Node, PushPhase>) {
    && (forall i | 0 < i < |q| :: LinkedAt(q, next, pushing, i) || GapAt(q, next, pushing, i))
    && (q != [] && q[0] in pushing ==> pushing[q[0]] == Exchanged(None))
    && (q != [] ==> q[|q| - 1] !in next)
  }

  // Every push under way is on a node of its own, in the queue exactly after its exchange.
  predicate Pushers(q: seq<Node>, next: map<Node, Node>, pushing: map<Node, PushPhase>) {
    forall x | x in pushing :: if pushing[x] == Cleared then x !in q && x !in next else x in q
  }

  // The first node of the queue has been stored where Pop looks for it.
  predicate Published(s: State) {
    s.queue != [] && s.queue[0] !in s.pushing
  }

  predicate EndsOk(s: State) {
    && s.head == (if s.queue == [] then None else Some(s.queue[|s.queue| - 1]))
    && (if s.lost then
          s.tail == None && Published(s) && (s.pop.Idle? || s.pop.Releasing?)
        else if Published(s) then s.tail == Some(s.queue[0])
        else s.tail == (if s.pop.Resetting? then Some(s.pop.t) else None))
  }

  predicate ConsumerOk(s: State) {
    match s.pop
    case Idle => true
    case Inspecting(t) => Published(s) && s.queue[0] == t
    case Claiming(t) => Published(s) && s.queue[0] == t
    case Spinning(t, _, _) => Published(s) && s.queue[0] == t && |s.queue| > 1
    case CheckingTail(t) => Published(s) && s.queue[0] == t && |s.queue| > 1
    case CheckingHead(t) => Published(s) && s.queue[0] == t && |s.queue| > 1
    case Advancing(t, n) =>
      Published(s) && s.queue[0] == t && |s.queue| > 1 && s.queue[1] == n && n !in s.pushing
    case Resetting(t) => t !in s.queue && t !in s.next && t !in s.pushing
    case Releasing(t) => t !in s.queue && t !in s.pushing
  }

  predicate Inv(s: State) {
    && s.order == s.returned + Hand(s.pop) + s.queue
    && Distinct(s.queue)
    && Chain(s.queue, s.next, s.pushing)
    && Pushers(s.queue, s.next, s.pushing)
    && EndsOk(s)
    && ConsumerOk(s)
  }

  // Links and pushes of nodes outside the queue do not matter to the chain.
  lemma SameChain(q: seq<Node>, next: map<Node, Node>, pushing: map<Node, PushPhase>,
                  next': map<Node, Node>, pushing': map<Node, PushPhase>)
    requires Chain(q, next, pushing)
    requires forall x | x in q :: (x in next' <==> x in next) && (x in next ==> next'[x] == next[x])
    requires forall x | x in q :: (x in pushing' <==> x in pushing) && (x in pushing ==> pushing'[x] == pushing[x])
    ensures Chain(q, next', pushing')
  {
    forall i | 0 < i < |q| ensures LinkedAt(q, next', pushing', i) || GapAt(q, next', pushing', i) {
      assert LinkedAt(q, next, pushing, i) || GapAt(q, next, pushing, i);
    }
  }

  lemma ExchangeChain(q: seq<Node>, next: map<Node, Node>, pushing: map<Node, PushPhase>, x: Node)
    requires Chain(q, next, pushing) && Pushers(q, next, pushing)
    requires x in pushing && pushing[x] == Cleared
    ensures Chain(q + [x], next, pushing[x := Exchanged(if q == [] then None else Some(q[|q| - 1]))])
  {
    var q', pushing' := q + [x], pushing[x := Exchanged(if q == [] then None else Some(q[|q| - 1]))];
    forall i | 0 < i < |q'| ensures LinkedAt(q', next, pushing', i) || GapAt(q', next, pushing', i) {
      assert i < |q| ==> LinkedAt(q, next, pushing, i) || GapAt(q, next, pushing, i);
    }
  }

  lemma LinkChain(q: seq<Node>, next: map<Node, Node>, pushing: map<Node, PushPhase>, x: Node)
    requires Chain(q, next, pushing) && Distinct(q)
    requires x in q && x in pushing && pushing[x].Exchanged?
    ensures x == q[0] <==> pushing[x].prev == None
    ensures pushing[x].prev.Some? ==> pushing[x].prev.value in q
    ensures Chain(q, if pushing[x].prev.Some? then next[pushing[x].prev.value := x] else next, pushing - {x})
  {
    var k :| 0 <= k < |q| && q[k] == x;
    assert k > 0 ==> LinkedAt(q, next, pushing, k) || GapAt(q, next, pushing, k);
    var next' := if pushing[x].prev.Some? then next[pushing[x].prev.value := x] else next;
    forall i | 0 < i < |q|
      ensures LinkedAt(q, next', pushing - {x}, i) || GapAt(q, next', pushing - {x}, i)
    {
      assert LinkedAt(q, next, pushing, i) || GapAt(q, next, pushing, i);
    }
  }

  lemma RestChain(q: seq<Node>, next: map<Node, Node>, pushing: map<Node, PushPhase>)
    requires q != [] && Chain(q, next, pushing) && (|q| > 1 ==> q[1] !in pushing)
    ensures Chain(q[1..], next, pushing)
  {
    var q' := q[1..];
    forall i | 0 < i < |q'| ensures LinkedAt(q', next, pushing, i) || GapAt(q', next, pushing, i) {
      assert LinkedAt(q, next, pushing, i + 1) || GapAt(q, next, pushing, i + 1);
    }
  }

  lemma PushKeepsInv(s: State, a: Action)
    requires Inv(s) && !a.PopStep? && Enabled(s, a)
    ensures Inv(PushNext(s, a))
  {
    match a
    case PushClear(x) =>
      SameChain(s.queue, s.next, s.pushing, PushNext(s, a).next, PushNext(s, a).pushing);
    case PushExchange(x) => ExchangeKeepsInv(s, x);
    case PushLink(x) => LinkKeepsInv(s, x);
  }

  lemma ExchangeKeepsInv(s: State, x: Node)
    requires Inv(s) && Enabled(s, PushExchange(x))
    ensures Inv(PushNext(s, PushExchange(x)))
  {
    ExchangeChain(s.queue, s.next, s.pushing, x);
  }

  lemma LinkKeepsInv(s: State, x: Node)
    requires Inv(s) && Enabled(s, PushLink(x))
    ensures Inv(PushNext(s, PushLink(x)))
  {
    LinkChain(s.queue, s.next, s.pushing, x);
  }

  // In the queue, the link of the first node tells which node comes second.
  lemma SecondLinked(s: State)
    requires Inv(s) && s.queue != []
    ensures s.queue[0] in s.next <==> |s.queue| > 1 && s.queue[1] !in s.pushing
    ensures s.queue[0] in s.next ==> s.next[s.queue[0]] == s.queue[1]
    ensures |s.queue| > 1 && s.queue[0] !in s.next ==>
      s.queue[1] in s.pushing && s.pushing[s.queue[1]] == Exchanged(Some(s.queue[0]))
  {
    assert |s.queue| > 1 ==>
      LinkedAt(s.queue, s.next, s.pushing, 1) || GapAt(s.queue, s.next, s.pushing, 1);
  }

  lemma TakeKeepsInv(s: State)
    requires Inv(s) && (s.pop.Claiming? || s.pop.Advancing?)
    ensures Inv(PopNext(s))
  {
    SecondLinked(s);
    if InHand(PopNext(s).pop) {
      RestChain(s.queue, s.next, s.pushing);
    }
  }

  lemma ReleaseKeepsInv(s: State)
    requires Inv(s) && s.pop.Releasing?
    ensures Inv(PopNext(s))
  {
    SameChain(s.queue, s.next, s.pushing, PopNext(s).next, s.pushing);
  }

  lemma LookKeepsInv(s: State)
    requires Inv(s) && !s.pop.Claiming? && !s.pop.Advancing? && !s.pop.Releasing?
    ensures Inv(PopNext(s))
  {
    if s.queue != [] {
      SecondLinked(s);
    }
  }

  lemma PopKeepsInv(s: State)
    requires Inv(s)
    ensures Inv(PopNext(s))
  {
    match s.pop
    case Claiming(_) => TakeKeepsInv(s);
    case Advancing(_, _) => TakeKeepsInv(s);
    case Releasing(_) => ReleaseKeepsInv(s);
    case _ => LookKeepsInv(s);
  }

  lemma {:induction false} InvAlways(s: State, run: seq<Action>)
    requires Inv(s)
    ensures Inv(RunFrom(s, run))
    decreases |run|
  {
    if run != [] {
      if Enabled(s, run[0]) {
        if run[0].PopStep? { PopKeepsInv(s); } else { PushKeepsInv(s, run[0]); }
      }
      InvAlways(Apply(s, run[0]), run[1..]);
    }
  }

  // ---- What holds in every interleaving ----

  /** Whatever the interleaving, what Pop has returned is a prefix of the head-exchange
      order, and every exchanged node is accounted for exactly once: returned, in the
      consumer's hand, or in the queue, where no node occurs twice. */
  lemma FifoAlways(run: seq<Action>)
    ensures var s := After(run);
            && s.returned <= s.order
            && s.order == s.returned + Hand(s.pop) + s.queue
            && Distinct(Hand(s.pop) + s.queue)
  {
    InvAlways(Empty, run);
  }

  /** After a failed claim the tail still names the inspected node and the head is set, so
      neither timeout branch gives up; and all that Pop waits for is one link store, which
      a running push is about to make. */
  lemma SpinWaitsForOneLink(run: seq<Action>)
    ensures var s := After(run);
            s.pop.Spinning? || s.pop.CheckingTail? || s.pop.CheckingHead? ==>
              && s.tail == Some(s.pop.t) && s.head.Some?
              && !PopNext(s).pop.Idle?
              && (s.pop.t in s.next ||
                  exists x :: x in s.pushing && s.pushing[x] == Exchanged(Some(s.pop.t)) &&
                    s.pop.t in PushNext(s, PushLink(x)).next)
  {
    InvAlways(Empty, run);
    var s := After(run);
    if s.pop.Spinning? || s.pop.CheckingTail? || s.pop.CheckingHead? {
      SecondLinked(s);
      assert s.pop.t !in s.next ==> s.pop.t in PushNext(s, PushLink(s.queue[1])).next;
    }
  }

  /** A Pop that has seen a node returns one: it comes back to its start only by handing out a node,
      whatever the interleaving. And one that reports an empty queue has found no node that is fully
      pushed, unless an earlier tail store was lost. */
  lemma PopReturnsWhatItSaw(run: seq<Action>, a: Action)
    ensures var s, s' := After(run), Apply(After(run), a);
      && (!s.pop.Idle? && s'.pop.Idle? ==> s.pop.Releasing? && s'.returned == s.returned + [s.pop.t])
      && (s.pop.Idle? && s.tail.None? ==> s.lost || s.queue == [] || s.queue[0] in s.pushing)
  {
    InvAlways(Empty, run);
  }

  // Only nodes in the queue and the one that Pop is about to return have links.
  predicate LinksInv(s: State) {
    forall x | x in s.next :: x in s.queue || x in Hand(s.pop)
  }

  lemma ApplyKeepsLinks(s: State, a: Action)
    requires Inv(s) && LinksInv(s)
    ensures LinksInv(Apply(s, a))
  {
    if a.PushLink? && Enabled(s, a) {
      LinkChain(s.queue, s.next, s.pushing, a.x);
    }
  }

  lemma {:induction false} RunKeepsLinks(s: State, run: seq<Action>)
    requires Inv(s) && LinksInv(s)
    ensures LinksInv(RunFrom(s, run))
    decreases |run|
  {
    if run != [] {
      InvAlways(s, [run[0]]);
      assert RunFrom(s, [run[0]]) == RunFrom(Apply(s, run[0]), []);
      ApplyKeepsLinks(s, run[0]);
      RunKeepsLinks(Apply(s, run[0]), run[1..]);
    }
  }

  /** A node that Pop has returned has no link left, until it is pushed again. */
  lemma ReturnedNodesAreCleared(run: seq<Action>, x: Node)
    ensures var s := After(run); x in s.next ==> x in s.queue || x in Hand(s.pop)
  {
    RunKeepsLinks(Empty, run);
  }

  // ---- Conservation, and the claim window ----

  predicate Quiescent(s: State) {
    s.pushing == map[] && s.pop.Idle?
  }

  // The consumer alone, for n accesses.
  function PopSteps(s: State, n: nat): State
    decreases n
  {
    if n == 0 then s else PopSteps(PopNext(s), n - 1)
  }

  lemma {:induction false} PopStepsSum(s: State, m: nat, n: nat)
    ensures PopSteps(s, m + n) == PopSteps(PopSteps(s, m), n)
    decreases m
  {
    if m > 0 {
      PopStepsSum(PopNext(s), m - 1, n);
    }
  }

  /** The spin loop gives up for the first time after 1111 null loads of the link: eleven rounds of a
      hundred pauses, with a yield after each but the last. */
  lemma SpinsElevenHundredTimes(s: State, t: Node, n: nat)
    requires s.pop == Spinning(t, 0, 0) && t !in s.next
    ensures n < 1111 ==> PopSteps(s, n).pop.Spinning?
    ensures n == 1111 ==> PopSteps(s, n) == s.(pop := CheckingTail(t))
  {
    if n < 1111 {
      SpinCount(s, t, 0, n);
    } else if n == 1111 {
      SpinCount(s, t, 0, n - 1);
      PopStepsNext(s, n - 1);
    }
  }

  lemma PopStepsNext(s: State, n: nat)
    ensures PopSteps(s, n + 1) == PopNext(PopSteps(s, n))
  {
    PopStepsSum(s, n, 1);
    assert PopSteps(PopSteps(s, n), 1) == PopSteps(PopNext(PopSteps(s, n)), 0);
  }

  // The phase after k null loads.
  function SpunFor(t: Node, k: nat): PopPhase {
    Spinning(t, k % 101, k / 101)
  }

  lemma SpinOnce(t: Node, k: nat)
    requires k < 1110
    ensures SpinAgain(t, k % 101, k / 101) == SpunFor(t, k + 1)
  {
    if k % 101 == 100 {
      assert k + 1 == 101 * (k / 101 + 1);
    } else {
      assert k + 1 == 101 * (k / 101) + (k % 101 + 1);
    }
  }

  lemma {:induction false} SpinCount(s: State, t: Node, k: nat, n: nat)
    requires s.pop == SpunFor(t, k) && t !in s.next && k + n <= 1110
    ensures PopSteps(s, n) == s.(pop := SpunFor(t, k + n))
    decreases n
  {
    if n > 0 {
      SpinOnce(t, k);
      SpinCount(PopNext(s), t, k + 1, n - 1);
    }
  }

  lemma {:induction false} StuckOnNullTail(s: State, n: nat)
    requires s.pop.Idle? && s.tail == None
    ensures PopSteps(s, n) == s
  {
    if n > 0 {
      StuckOnNullTail(s, n - 1);
    }
  }

  // The number of accesses of one undisturbed call of Pop.
  function CallLength(s: State): nat {
    if |s.queue| > 1 then 4 else 5
  }

  lemma OneCall(s: State)
    requires Inv(s) && Quiescent(s) && !s.lost && s.queue != []
    ensures var s' := PopSteps(s, CallLength(s));
            Inv(s') && Quiescent(s') && !s'.lost && s'.queue == s.queue[1..] &&
            s'.returned == s.returned + [s.queue[0]] && s'.order == s.order
  {
    SecondLinked(s);
    var s1 := PopNext(s);
    var s2 := PopNext(s1);
    var s3 := PopNext(s2);
    var s4 := PopNext(s3);
    PopKeepsInv(s); PopKeepsInv(s1); PopKeepsInv(s2); PopKeepsInv(s3); PopKeepsInv(s4);
    assert PopSteps(s, 4) == PopSteps(s1, 3) == PopSteps(s2, 2) == PopSteps(s3, 1) == PopSteps(s4, 0);
    if |s.queue| == 1 {
      assert PopSteps(s, 5) == PopSteps(s1, 4) == PopSteps(s2, 3) == PopSteps(s3, 2)
          == PopSteps(s4, 1) == PopSteps(PopNext(s4), 0);
    }
  }

  lemma {:induction false} DrainKept(s: State, n: nat)
    requires Inv(s) && Quiescent(s) && !s.lost && n >= 5 * |s.queue|
    ensures PopSteps(s, n).returned == s.order && PopSteps(s, n).pop.Idle?
    decreases |s.queue|
  {
    if s.queue == [] {
      StuckOnNullTail(s, n);
    } else {
      OneCall(s);
      PopStepsSum(s, CallLength(s), n - CallLength(s));
      DrainKept(PopSteps(s, CallLength(s)), n - CallLength(s));
    }
  }

  // The access is a producer's first-element tail store, made between the consumer's claim
  // and its reset of the tail.
  predicate FirstStoreInWindow(s: State, a: Action) {
    && s.pop.Resetting?
    && a.PushLink? && a.x in s.pushing && s.pushing[a.x] == Exchanged(None)
  }

  ghost predicate StoreInWindow(run: seq<Action>, k: nat)
    requires k < |run|
  {
    FirstStoreInWindow(After(run[..k]), run[k])
  }

  // The tail store has been overwritten, or is about to be.
  predicate Disturbed(s: State) {
    s.lost || (s.pop.Resetting? && s.tail != Some(s.pop.t))
  }

  lemma DisturbedByStep(s: State, a: Action)
    requires Inv(s)
    ensures Disturbed(Apply(s, a)) <==> Disturbed(s) || FirstStoreInWindow(s, a)
  {
    if a.PushLink? && Enabled(s, a) {
      LinkChain(s.queue, s.next, s.pushing, a.x);
    }
  }

  lemma LastStoreInWindow(run: seq<Action>, before: seq<Action>, a: Action)
    requires run == before + [a]
    ensures (exists k: nat :: k < |run| && StoreInWindow(run, k)) <==>
            (exists k: nat :: k < |before| && StoreInWindow(before, k)) ||
            FirstStoreInWindow(After(before), a)
  {
    assert run[..|before|] == before;
    assert StoreInWindow(run, |before|) == FirstStoreInWindow(After(before), a);
    forall k: nat | k < |before| ensures StoreInWindow(run, k) == StoreInWindow(before, k) {
      assert before[..k] == run[..k];
    }
  }

  lemma {:induction false} DisturbedIffStoreInWindow(run: seq<Action>)
    ensures Disturbed(After(run)) <==> exists k: nat :: k < |run| && StoreInWindow(run, k)
    decreases |run|
  {
    if run != [] {
      var before, a := run[..|run| - 1], run[|run| - 1];
      assert run == before + [a];
      DisturbedIffStoreInWindow(before);
      LastStoreInWindow(run, before, a);
      InvAlways(Empty, before);
      RunSnoc(Empty, before, a);
      DisturbedByStep(After(before), a);
    }
  }

  /** Conservation, exactly when it holds. At any point of any run where no Push or Pop is
      under way, popping again and again returns precisely the nodes that remain if and
      only if no producer's first-element tail store has ever fallen between the consumer's
      claim and its reset of the tail. */
  lemma DrainReturnsAllIffNoStoreInWindow(run: seq<Action>, n: nat)
    requires Quiescent(After(run)) && n >= 5 * |After(run).queue|
    ensures (PopSteps(After(run), n).returned == After(run).order) <==>
            !(exists k: nat :: k < |run| && StoreInWindow(run, k))
  {
    var s := After(run);
    InvAlways(Empty, run);
    DisturbedIffStoreInWindow(run);
    if s.lost {
      StuckOnNullTail(s, n);
    } else {
      DrainKept(s, n);
    }
  }

  /** Once a store has been overwritten, no producer can repair it: whatever happens
      afterwards, Pop returns nothing but the node it already had in hand. */
  lemma {:induction false} LossIsForever(s: State, run: seq<Action>)
    requires Inv(s) && s.lost
    ensures RunFrom(s, run).lost
    ensures RunFrom(s, run).returned + Hand(RunFrom(s, run).pop) == s.returned + Hand(s.pop)
    decreases |run|
  {
    if run != [] {
      InvAlways(s, [run[0]]);
      assert RunFrom(s, [run[0]]) == RunFrom(Apply(s, run[0]), []);
      if run[0].PushLink? && Enabled(s, run[0]) {
        LinkChain(s.queue, s.next, s.pushing, run[0].x);
      }
      LossIsForever(Apply(s, run[0]), run[1..]);
    }
  }

  lemma Unroll(s: State, r: seq<Action>)
    requires |r| == 5
    ensures RunFrom(s, r) == Apply(Apply(Apply(Apply(Apply(s, r[0]), r[1]), r[2]), r[3]), r[4])
  {
    var s1 := Apply(s, r[0]);
    var s2 := Apply(s1, r[1]);
    var s3 := Apply(s2, r[2]);
    var s4 := Apply(s3, r[3]);
    assert r[1..][1..] == r[2..] && r[2..][1..] == r[3..] && r[3..][1..] == r[4..] && r[4..][1..] == [];
    assert RunFrom(s, r) == RunFrom(s1, r[1..]) == RunFrom(s2, r[2..]) == RunFrom(s3, r[3..])
        == RunFrom(s4, r[4..]) == RunFrom(Apply(s4, r[4]), []);
  }

  // Node 1 is pushed and claimed, but the tail is not reset yet.
  const ClaimedOne := State(None, Some(1), map[], map[], Resetting(1), [], [1], [], false)

  lemma ClaimOne(run: seq<Action>)
    requires run == [PushClear(1), PushExchange(1), PushLink(1), PopStep, PopStep, PopStep]
    ensures After(run) == ClaimedOne
  {
    Unroll(Empty, run[..5]);
    var s2 := Apply(Apply(Empty, PushClear(1)), PushExchange(1));
    assert s2 == State(Some(1), None, map[], map[1 := Exchanged(None)], Idle, [1], [1], [], false);
    assert Apply(s2, PushLink(1)) == State(Some(1), Some(1), map[], map[], Idle, [1], [1], [], false);
    RunSnoc(Empty, run[..5], PopStep);
    assert run == run[..5] + [PopStep];
  }

  /** The window is real: node 2 is pushed into it, and is never returned. */
  lemma StoreInWindowHappens(first: seq<Action>, second: seq<Action>, n: nat)
    requires first == [PushClear(1), PushExchange(1), PushLink(1), PopStep, PopStep, PopStep]
    requires second == [PushClear(2), PushExchange(2), PushLink(2), PopStep, PopStep]
    ensures Quiescent(After(first + second)) && After(first + second).order == [1, 2]
    ensures PopSteps(After(first + second), n).returned == [1]
  {
    ClaimOne(first);
    RunConcat(Empty, first, second);
    Unroll(ClaimedOne, second);
    var s2 := Apply(Apply(ClaimedOne, PushClear(2)), PushExchange(2));
    assert s2 == State(Some(2), Some(1), map[], map[2 := Exchanged(None)], Resetting(1), [2], [1, 2], [], false);
    assert Apply(s2, PushLink(2)) == State(Some(2), Some(2), map[], map[], Resetting(1), [2], [1, 2], [], false);
    StuckOnNullTail(After(first + second), n);
  }

  // ---- The code ----

  predicate IsProducers(run: seq<Action>) {
    forall a | a in run :: !a.PopStep?
  }

  lemma {:induction false} ProducersLeavePop(s: State, run: seq<Action>)
    requires IsProducers(run)
    ensures RunFrom(s, run).pop == s.pop && RunFrom(s, run).returned == s.returned
    decreases |run|
  {
    if run != [] {
      ProducersLeavePop(Apply(s, run[0]), run[1..]);
    }
  }

  // No access of the run is one of the push of the item.
  predicate LeavesPush(run: seq<Action>, item: Node) {
    forall a | a in run :: a.PopStep? || a.x != item
  }

  lemma {:induction false} OthersLeavePush(s: State, run: seq<Action>, item: Node)
    requires LeavesPush(run, item)
    ensures item in RunFrom(s, run).pushing <==> item in s.pushing
    ensures item in s.pushing ==> RunFrom(s, run).pushing[item] == s.pushing[item]
    decreases |run|
  {
    if run != [] {
      OtherLeavesPush(s, run[0], item);
      OthersLeavePush(Apply(s, run[0]), run[1..], item);
    }
  }

  lemma OtherLeavesPush(s: State, a: Action, item: Node)
    requires a.PopStep? || a.x != item
    ensures var s' := Apply(s, a);
      (item in s'.pushing <==> item in s.pushing) && (item in s.pushing ==> s'.pushing[item] == s.pushing[item])
  {
  }

  predicate IsConsumer(run: seq<Action>) {
    forall a | a in run :: a.PopStep?
  }

  lemma {:induction false} UndisturbedPop(s: State, run: seq<Action>)
    requires Inv(s) && s.pushing == map[] && !Disturbed(s)
    requires IsConsumer(run)
    ensures var s' := RunFrom(s, run);
            Inv(s') && s'.pushing == map[] && s'.order == s.order && !Disturbed(s')
    decreases |run|
  {
    if run != [] {
      assert run[0].PopStep?;
      PopKeepsInv(s);
      DisturbedByStep(s, PopStep);
      UndisturbedPop(PopNext(s), run[1..]);
    }
  }

  lemma MoveFirst(a: seq<Node>, x: Node, b: seq<Node>)
    ensures a + ([x] + b) == (a + [x]) + b
  {
  }

  function Min(a: nat, b: nat): nat { if a < b then a else b }

  // The consumer's own accesses.
  function Accesses(m: nat): (r: seq<Action>)
    ensures |r| == m && IsConsumer(r)
  {
    seq(m, _ => PopStep)
  }

  // One more of them.
  lemma OneMore(start: State, m: nat, schedule: seq<seq<Action>>, turn: nat)
    requires turn <= m && turn <= |schedule|
    ensures RunFrom(start, Woven(Accesses(m + 1), schedule[..turn])) ==
      PopNext(RunFrom(start, Woven(Accesses(m), schedule[..turn])))
  {
    assert Accesses(m + 1) == Accesses(m) + [PopStep];
    WovenOwn(Accesses(m), schedule[..turn], PopStep);
    RunSnoc(start, Woven(Accesses(m), schedule[..turn]), PopStep);
  }

  // A call, and another in the rest of the schedule.
  lemma PlayedOn(m: nat, n: nat, schedule: seq<seq<Action>>, turn: nat)
    requires turn == Min(m, |schedule|) && 0 < n
    ensures Woven(Accesses(m + n), schedule[..Min(m + n - 1, |schedule|)]) ==
      Woven(Accesses(m), schedule[..turn]) + Woven(Accesses(n), schedule[turn..][..Min(n - 1, |schedule| - turn)])
  {
    var later := schedule[turn..][..Min(n - 1, |schedule| - turn)];
    assert Accesses(m + n) == Accesses(m) + Accesses(n);
    assert schedule[..Min(m + n - 1, |schedule|)] == schedule[..turn] + later;
    WovenConcat(Accesses(m), schedule[..turn], Accesses(n), later);
  }

  lemma TakenUpTo(a: seq<Node>, b: seq<Node>, whole: seq<Node>, n: nat)
    requires a + b == whole && |a| <= n && (|a| == n || b == [])
    ensures |a| == if n < |whole| then n else |whole|
  {
  }

  // The outcome of the two checks after a timeout: pop again, return null, spin on.
  datatype Verdict = Restart | GiveUp | SpinOn

  /** The queue object. `head`, `tail` and the nodes' link fields `next` are the shared
      memory; `pushing` and `pop` say where each running call stands, and `queue` which
      nodes are in use, so that a new push does not start on one of them. */
  class Queue {
    var head: Option<Node>
    var tail: Option<Node>
    var next: map<Node, Node>
    var pushing: map<Node, PushPhase>
    var pop: PopPhase
    var queue: seq<Node>
    ghost var order: seq<Node>
    ghost var returned: seq<Node>
    ghost var lost: bool

    ghost function View(): State
      reads this
    {
      State(head, tail, next, pushing, pop, queue, order, returned, lost)
    }

    constructor ()
      ensures View() == Empty
    {
      head, tail, next, pushing, pop, queue := None, None, map[], map[], Idle, [];
      order, returned, lost := [], [], false;
    }

    method ClearLink(item: Node)
      requires Enabled(View(), PushClear(item))
      modifies this
      ensures View() == Apply(old(View()), PushClear(item))
    {
      next := next - {item};
      pushing := pushing[item := Cleared];
    }

    method ExchangeHead(item: Node) returns (prev: Option<Node>)
      requires Enabled(View(), PushExchange(item))
      modifies this
      ensures View() == Apply(old(View()), PushExchange(item))
      ensures prev == old(head)
    {
      prev, head := head, Some(item);
      pushing := pushing[item := Exchanged(prev)];
      queue, order := queue + [item], order + [item];
    }

    method Publish(item: Node, prev: Option<Node>)
      requires item in pushing && pushing[item] == Exchanged(prev)
      modifies this
      ensures View() == Apply(old(View()), PushLink(item))
    {
      match prev {
        case Some(p) => next := next[p := item];
        case None => tail := Some(item);
      }
      pushing := pushing - {item};
    }

    // The consumer's next access.
    method ConsumerAccess()
      modifies this
      ensures View() == PopNext(old(View()))
    {
      match pop {
        case Idle => var _ := LoadTail();
        case Inspecting(t) => var _ := LoadNext(t, Claiming(t));
        case Claiming(t) => var _ := ClaimHead(t);
        case Resetting(t) => ResetTail(t);
        case Spinning(t, pauseCount, yieldCount) => var _ := LoadNext(t, SpinAgain(t, pauseCount, yieldCount));
        case CheckingTail(t) => var _ := ReloadTail(t);
        case CheckingHead(t) => var _ := ReloadHead(t);
        case Advancing(t, n) => AdvanceTail(t, n);
        case Releasing(t) => ClearReturned(t);
      }
    }

    // An access of a producer or of the consumer, if that thread is about to make it.
    method Access(a: Action)
      modifies this
      ensures View() == Apply(old(View()), a)
    {
      if Enabled(State(head, tail, next, pushing, pop, queue, [], [], false), a) {
        match a {
          case PushClear(x) => ClearLink(x);
          case PushExchange(x) => var _ := ExchangeHead(x);
          case PushLink(x) => Publish(x, pushing[x].prev);
          case PopStep => ConsumerAccess();
        }
      }
    }

    // The accesses of other threads, in the given order.
    method Interfere(run: seq<Action>)
      modifies this
      ensures View() == RunFrom(old(View()), run)
    {
      var i := 0;
      while i < |run|
        invariant 0 <= i <= |run|
        invariant View() == RunFrom(old(View()), run[..i])
      {
        RunSnoc(old(View()), run[..i], run[i]);
        assert run[..i] + [run[i]] == run[..i + 1];
        Access(run[i]);
        i := i + 1;
      }
      assert run[..|run|] == run;
    }

    /** Push of one node, with the accesses of other producers and of the consumer that fall
        between its own. */
    method Push(item: Node, beforeExchange: seq<Action>, beforeLink: seq<Action>)
      requires Enabled(View(), PushClear(item))
      requires LeavesPush(beforeExchange, item) && LeavesPush(beforeLink, item)
      modifies this
      ensures View() == RunFrom(old(View()),
        [PushClear(item)] + beforeExchange + [PushExchange(item)] + beforeLink + [PushLink(item)])
    {
      ghost var start := View();
      ClearLink(item);
      RunSnoc(start, [], PushClear(item));
      OthersLeavePush(View(), beforeExchange, item);
      Interfere(beforeExchange);
      RunConcat(start, [PushClear(item)], beforeExchange);
      assert [] + [PushClear(item)] == [PushClear(item)];
      ghost var done := [PushClear(item)] + beforeExchange;
      RunSnoc(start, done, PushExchange(item));
      var prev := ExchangeHead(item);
      OthersLeavePush(View(), beforeLink, item);
      Interfere(beforeLink);
      done := done + [PushExchange(item)];
      RunConcat(start, done, beforeLink);
      RunSnoc(start, done + beforeLink, PushLink(item));
      Publish(item, prev);
    }

    // The call has made m accesses, with the first `turn` runs of the schedule each after one
    // of them, and these have led here.
    ghost predicate Along(start: State, m: nat, schedule: seq<seq<Action>>, turn: nat)
      reads this
    {
      turn <= |schedule| && turn <= m && View() == RunFrom(start, Woven(Accesses(m), schedule[..turn]))
    }

    // The others' accesses that fall after the call's m-th, if the schedule has any left.
    method Between(schedule: seq<seq<Action>>, turn: nat, ghost start: State, ghost m: nat)
      returns (turn': nat)
      requires forall run | run in schedule :: IsProducers(run)
      requires 0 < m && turn == Min(m - 1, |schedule|) && Along(start, m, schedule, turn)
      modifies this
      ensures turn' == Min(m, |schedule|) && Along(start, m, schedule, turn')
      ensures pop == old(pop) && returned == old(returned)
      ensures turn == |schedule| ==> View() == old(View())
    {
      turn' := turn;
      if turn < |schedule| {
        WovenOthers(Accesses(m), schedule[..turn], schedule[turn]);
        assert schedule[..turn + 1] == schedule[..turn] + [schedule[turn]];
        RunConcat(start, Woven(Accesses(m), schedule[..turn]), schedule[turn]);
        ProducersLeavePop(View(), schedule[turn]);
        Interfere(schedule[turn]);
        turn' := turn + 1;
      }
    }

    // ---- The consumer's accesses ----

    method LoadTail() returns (t: Option<Node>)
      requires pop.Idle?
      modifies this
      ensures View() == PopNext(old(View())) && t == old(tail)
      ensures pop == if t.Some? then Inspecting(t.value) else Idle
    {
      t := tail;
      if t.Some? {
        pop := Inspecting(t.value);
      }
    }

    // The link of t, and where Pop goes from there.
    method LoadNext(t: Node, ifNull: PopPhase) returns (n: Option<Node>)
      requires (pop == Inspecting(t) && ifNull == Claiming(t)) ||
               (pop.Spinning? && pop.t == t && ifNull == SpinAgain(t, pop.pauseCount, pop.yieldCount))
      modifies this
      ensures View() == PopNext(old(View()))
      ensures n == (if t in old(next) then Some(old(next)[t]) else None)
      ensures pop == if n.Some? then Advancing(t, n.value) else ifNull
    {
      n := if t in next then Some(next[t]) else None;
      pop := if n.Some? then Advancing(t, n.value) else ifNull;
    }

    method ClaimHead(t: Node) returns (claimed: bool)
      requires pop == Claiming(t)
      modifies this
      ensures View() == PopNext(old(View())) && claimed == (old(head) == Some(t))
      ensures pop == if claimed then Resetting(t) else Spinning(t, 0, 0)
    {
      claimed := head == Some(t);
      if claimed {
        head, queue := None, Rest(queue);
      }
      pop := if claimed then Resetting(t) else Spinning(t, 0, 0);
    }

    method ResetTail(t: Node)
      requires pop == Resetting(t)
      modifies this
      ensures View() == PopNext(old(View())) && pop == Releasing(t) && returned == old(returned)
    {
      lost := lost || tail != Some(t);
      tail, pop := None, Releasing(t);
    }

    method AdvanceTail(t: Node, n: Node)
      requires pop == Advancing(t, n)
      modifies this
      ensures View() == PopNext(old(View())) && pop == Releasing(t) && returned == old(returned)
    {
      tail, pop, queue := Some(n), Releasing(t), Rest(queue);
    }

    method ReloadTail(t: Node) returns (same: bool)
      requires pop == CheckingTail(t)
      modifies this
      ensures View() == PopNext(old(View())) && same == (old(tail) == Some(t))
      ensures pop == if same then CheckingHead(t) else Idle
    {
      same := tail == Some(t);
      pop := if same then CheckingHead(t) else Idle;
    }

    method ReloadHead(t: Node) returns (empty: bool)
      requires pop == CheckingHead(t)
      modifies this
      ensures View() == PopNext(old(View())) && empty == old(head).None?
      ensures pop == if empty then Idle else Spinning(t, 0, 0)
    {
      empty := head.None?;
      pop := if empty then Idle else Spinning(t, 0, 0);
    }

    method ClearReturned(t: Node)
      requires pop == Releasing(t)
      modifies this
      ensures View() == PopNext(old(View())) && pop.Idle? && returned == old(returned) + [t]
    {
      next, pop, returned := next - {t}, Idle, returned + [t];
    }

    // The last access, with the others' before it: clear t's link and return t.
    method Release(t: Node, schedule: seq<seq<Action>>, turn: nat, ghost start: State, ghost m: nat)
      returns (turn': nat)
      requires forall run | run in schedule :: IsProducers(run)
      requires pop == Releasing(t) && 0 < m && turn == Min(m - 1, |schedule|) && Along(start, m, schedule, turn)
      modifies this
      ensures pop.Idle? && returned == old(returned) + [t]
      ensures turn' == Min(m, |schedule|) && Along(start, m + 1, schedule, turn')
    {
      turn' := Between(schedule, turn, start, m);
      OneMore(start, m, schedule, turn');
      ClearReturned(t);
    }

    // ---- Whole calls, among the accesses of others ----

    /** Pop, with the accesses of others that fall between its own: `schedule` has those after
        each of its accesses, of which it makes m. It has not ended when the schedule runs out
        while it waits for a link. */
    method Pop(schedule: seq<seq<Action>>)
      returns (item: Option<Node>, ended: bool, ghost m: nat)
      requires pop.Idle? && forall run | run in schedule :: IsProducers(run)
      modifies this
      ensures 0 < m && View() == RunFrom(old(View()), Woven(Accesses(m), schedule[..Min(m - 1, |schedule|)]))
      ensures ended ==> pop.Idle? && returned == old(returned) + (if item.Some? then [item.value] else [])
      ensures !ended ==> pop.Spinning? && item.None?
      ensures schedule == [] && ended && item.None? ==> old(tail) == None
      ensures schedule == [] && !ended ==> pop.t !in next
      decreases |schedule|, 3
    {
      ghost var start := View();
      item, ended, m := None, true, 1;
      OneMore(start, 0, schedule, 0);
      var t := LoadTail();
      if t.None? {
        return;
      }
      item, ended, m := Inspect(t.value, schedule, start);
    }

    // Pop from its load of the tail's link on.
    method Inspect(t: Node, schedule: seq<seq<Action>>, ghost start: State)
      returns (item: Option<Node>, ended: bool, ghost m: nat)
      requires forall run | run in schedule :: IsProducers(run)
      requires pop == Inspecting(t) && Along(start, 1, schedule, 0)
      modifies this
      ensures 0 < m && Along(start, m, schedule, Min(m - 1, |schedule|))
      ensures ended ==> pop.Idle? && returned == old(returned) + (if item.Some? then [item.value] else [])
      ensures !ended ==> pop.Spinning? && item.None?
      ensures schedule == [] && !ended ==> pop.t !in next
      ensures schedule == [] && ended ==> item.Some?
      decreases |schedule|, 2, 1
    {
      var turn := Between(schedule, 0, start, 1);
      OneMore(start, 1, schedule, turn);
      var n := LoadNext(t, Claiming(t));
      if n.Some? {
        item, m := Advance(t, n.value, schedule, turn, start, 2);
        ended := true;
      } else {
        item, ended, m := Claim(t, schedule, turn, start, 2);
      }
    }

    // Pop from its claim of the head on.
    method Claim(t: Node, schedule: seq<seq<Action>>, firstTurn: nat, ghost start: State, ghost before: nat)
      returns (item: Option<Node>, ended: bool, ghost m: nat)
      requires forall run | run in schedule :: IsProducers(run)
      requires 0 < before && firstTurn == Min(before - 1, |schedule|) && Along(start, before, schedule, firstTurn)
      requires pop == Claiming(t)
      modifies this
      ensures 0 < m && Along(start, m, schedule, Min(m - 1, |schedule|))
      ensures ended ==> pop.Idle? && returned == old(returned) + (if item.Some? then [item.value] else [])
      ensures !ended ==> pop.Spinning? && item.None?
      ensures firstTurn == |schedule| && !ended ==> pop.t == t && next == old(next)
      ensures firstTurn == |schedule| && ended ==> item.Some?
      decreases |schedule|, 2, 0
    {
      var turn := Between(schedule, firstTurn, start, before);
      OneMore(start, before, schedule, turn);
      var claimed := ClaimHead(t);
      if !claimed {
        item, ended, m := AwaitLink(t, schedule, turn, start, before + 1);
        return;
      }
      turn := Between(schedule, turn, start, before + 1);
      OneMore(start, before + 1, schedule, turn);
      ResetTail(t);
      turn := Release(t, schedule, turn, start, before + 2);
      item, ended, m := Some(t), true, before + 3;
    }

    // Pop from its store of n in the tail on.
    method Advance(t: Node, n: Node, schedule: seq<seq<Action>>, firstTurn: nat, ghost start: State, ghost before: nat)
      returns (item: Option<Node>, ghost m: nat)
      requires forall run | run in schedule :: IsProducers(run)
      requires 0 < before && firstTurn == Min(before - 1, |schedule|) && Along(start, before, schedule, firstTurn)
      requires pop == Advancing(t, n)
      modifies this
      ensures m == before + 2 && Along(start, m, schedule, Min(m - 1, |schedule|)) && pop.Idle?
      ensures item == Some(t) && returned == old(returned) + [t]
    {
      var turn := Between(schedule, firstTurn, start, before);
      OneMore(start, before, schedule, turn);
      AdvanceTail(t, n);
      turn := Release(t, schedule, turn, start, before + 1);
      item, m := Some(t), before + 2;
    }

    // The spin loop of Pop, entered when another producer has exchanged the head.
    method AwaitLink(t: Node, schedule: seq<seq<Action>>, firstTurn: nat, ghost start: State, ghost before: nat)
      returns (item: Option<Node>, ended: bool, ghost m: nat)
      requires forall run | run in schedule :: IsProducers(run)
      requires 0 < before && firstTurn == Min(before - 1, |schedule|) && Along(start, before, schedule, firstTurn)
      requires pop == Spinning(t, 0, 0)
      modifies this
      ensures 0 < m && Along(start, m, schedule, Min(m - 1, |schedule|))
      ensures ended ==> pop.Idle? && returned == old(returned) + (if item.Some? then [item.value] else [])
      ensures !ended ==> pop.Spinning? && item.None?
      ensures firstTurn == |schedule| ==> !ended && View() == old(View())
      decreases |schedule|, 1
    {
      item, ended, m := None, true, before;
      var turn := firstTurn;
      var pauseCount, yieldCount := 0, 0;
      while turn < |schedule|
        invariant 0 < m && turn == Min(m - 1, |schedule|) && Along(start, m, schedule, turn)
        invariant firstTurn <= turn && pop == Spinning(t, pauseCount, yieldCount) && returned == old(returned)
        invariant ended && item.None?
        invariant firstTurn == |schedule| ==> View() == old(View())
        decreases |schedule| - turn
      {
        var n;
        turn, n := LookForLink(t, pauseCount, yieldCount, schedule, turn, start, m);
        m := m + 1;
        if n.Some? {
          item, m := Advance(t, n.value, schedule, turn, start, m);
          return;
        }
        if pauseCount < MAX_PAUSE_SPINS {
          pauseCount := pauseCount + 1;
          continue;
        }
        if yieldCount < MAX_YIELD_SPINS {
          yieldCount := yieldCount + 1;
          pauseCount := 0;
          continue;
        }
        var spinOn;
        item, ended, turn, spinOn, m := TimedOut(t, schedule, turn, start, m);
        if !spinOn {
          return;
        }
        pauseCount, yieldCount := 0, 0;
      }
      ended := false;
    }

    // One turn of the spin loop: load the link again.
    method LookForLink(t: Node, pauseCount: nat, yieldCount: nat, schedule: seq<seq<Action>>, firstTurn: nat,
                       ghost start: State, ghost m: nat)
      returns (turn: nat, n: Option<Node>)
      requires forall run | run in schedule :: IsProducers(run)
      requires 0 < m && firstTurn == Min(m - 1, |schedule|) && Along(start, m, schedule, firstTurn)
      requires pop == Spinning(t, pauseCount, yieldCount)
      modifies this
      ensures turn == Min(m, |schedule|) && Along(start, m + 1, schedule, turn) && returned == old(returned)
      ensures pop == if n.Some? then Advancing(t, n.value) else SpinAgain(t, pauseCount, yieldCount)
    {
      turn := Between(schedule, firstTurn, start, m);
      OneMore(start, m, schedule, turn);
      n := LoadNext(t, SpinAgain(t, pauseCount, yieldCount));
    }

    // Pop again, return null or spin on, by what the two ends of the queue look like.
    method TimedOut(t: Node, schedule: seq<seq<Action>>, firstTurn: nat, ghost start: State, ghost before: nat)
      returns (item: Option<Node>, ended: bool, turn: nat, spinOn: bool, ghost m: nat)
      requires forall run | run in schedule :: IsProducers(run)
      requires 1 < before && 0 < firstTurn == Min(before - 1, |schedule|) && Along(start, before, schedule, firstTurn)
      requires pop == CheckingTail(t)
      modifies this
      ensures before < m && Along(start, m, schedule, Min(m - 1, |schedule|))
      ensures spinOn ==>
        turn == Min(m - 1, |schedule|) && firstTurn <= turn && pop == Spinning(t, 0, 0) && returned == old(returned) && item.None? && ended
      ensures !spinOn && ended ==> pop.Idle? && returned == old(returned) + (if item.Some? then [item.value] else [])
      ensures !spinOn && !ended ==> pop.Spinning? && item.None?
      decreases |schedule|, 0, 1
    {
      item, ended := None, true;
      var verdict;
      turn, verdict, m := CheckQueue(t, schedule, firstTurn, start, before);
      spinOn := verdict.SpinOn?;
      if verdict.Restart? {
        item, ended, m := PopAgain(schedule, turn, start, m);
      }
    }

    // The recursive call of Pop.
    method PopAgain(schedule: seq<seq<Action>>, firstTurn: nat, ghost start: State, ghost before: nat)
      returns (item: Option<Node>, ended: bool, ghost m: nat)
      requires pop.Idle? && forall run | run in schedule :: IsProducers(run)
      requires 1 < before && 0 < firstTurn == Min(before - 1, |schedule|) && Along(start, before, schedule, firstTurn)
      modifies this
      ensures 0 < m && Along(start, m, schedule, Min(m - 1, |schedule|))
      ensures ended ==> pop.Idle? && returned == old(returned) + (if item.Some? then [item.value] else [])
      ensures !ended ==> pop.Spinning? && item.None?
      ensures before < m
      decreases |schedule|, 0, 0
    {
      var turn := Between(schedule, firstTurn, start, before);
      ghost var rest;
      item, ended, rest := Pop(schedule[turn..]);
      m := before + rest;
      PlayedOn(before, rest, schedule, turn);
      RunConcat(start, Woven(Accesses(before), schedule[..turn]),
                Woven(Accesses(rest), schedule[turn..][..Min(rest - 1, |schedule| - turn)]));
    }

    // What Pop does when its spinning has timed out: look at the two ends again.
    method CheckQueue(t: Node, schedule: seq<seq<Action>>, firstTurn: nat, ghost start: State, ghost before: nat)
      returns (turn: nat, verdict: Verdict, ghost m: nat)
      requires forall run | run in schedule :: IsProducers(run)
      requires 0 < before && firstTurn == Min(before - 1, |schedule|) && Along(start, before, schedule, firstTurn)
      requires pop == CheckingTail(t)
      modifies this
      ensures before < m && turn == Min(m - 1, |schedule|) && Along(start, m, schedule, turn)
      ensures returned == old(returned)
      ensures pop == if verdict.SpinOn? then Spinning(t, 0, 0) else Idle
    {
      var same;
      turn, same := CheckTail(t, schedule, firstTurn, start, before);
      m := before + 1;
      if !same {
        verdict := Restart;
        return;
      }
      turn := Between(schedule, turn, start, m);
      OneMore(start, m, schedule, turn);
      m := m + 1;
      var empty := ReloadHead(t);
      verdict := if empty then GiveUp else SpinOn;
    }

    // The load of the tail again.
    method CheckTail(t: Node, schedule: seq<seq<Action>>, firstTurn: nat, ghost start: State, ghost before: nat)
      returns (turn: nat, same: bool)
      requires forall run | run in schedule :: IsProducers(run)
      requires 0 < before && firstTurn == Min(before - 1, |schedule|) && Along(start, before, schedule, firstTurn)
      requires pop == CheckingTail(t)
      modifies this
      ensures turn == Min(before, |schedule|) && Along(start, before + 1, schedule, turn)
      ensures returned == old(returned) && pop == if same then CheckingHead(t) else Idle
    {
      turn := Between(schedule, firstTurn, start, before);
      OneMore(start, before, schedule, turn);
      same := ReloadTail(t);
    }

    // Pop with no other call under way takes the oldest node, if there is one.
    method PopAlone() returns (item: Option<Node>)
      requires Inv(View()) && Quiescent(View()) && !lost
      modifies this
      ensures Inv(View()) && Quiescent(View()) && !lost
      ensures old(queue) == (if item.Some? then [item.value] else []) + queue
      ensures item.None? ==> queue == []
    {
      ghost var s := View();
      var ended;
      ghost var m;
      item, ended, m := Pop([]);
      UndisturbedPop(s, Accesses(m));
      if queue != [] {
        SecondLinked(View());
      }
      assert ended;
      assert s.order == s.returned + s.queue;
      assert s.queue == s.order[|s.returned|..];
      assert order == returned + queue;
      if item.Some? {
        assert order == s.returned + ([item.value] + queue);
      }
    }

    /** With no other call under way, a batch of pops takes the oldest nodes, in order. */
    method PopMultiple(maxCount: nat) returns (buffer: seq<Node>)
      requires Inv(View()) && Quiescent(View()) && !lost
      modifies this
      ensures Inv(View()) && Quiescent(View()) && !lost
      ensures |buffer| == (if maxCount < |old(queue)| then maxCount else |old(queue)|)
      ensures buffer + queue == old(queue)
    {
      buffer := [];
      while |buffer| < maxCount
        invariant |buffer| <= maxCount
        invariant Inv(View()) && Quiescent(View()) && !lost
        invariant buffer + queue == old(queue)
      {
        var item := PopAlone();
        if item.None? {
          break;
        }
        MoveFirst(buffer, item.value, queue);
        buffer := buffer + [item.value];
      }
      TakenUpTo(buffer, queue, old(queue), maxCount);
    }
  }
}
