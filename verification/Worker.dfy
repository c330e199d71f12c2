/**
 A worker's own operations on its eight-slot batch array, its deque and, through PickTask, the
 global queue and the other workers' deques, one whole call at a time. `WorkerRuns` takes the
 same operations apart and interleaves them.
 */
module Worker {
  import opened Options
  import opened SharedQueue
  import opened WorkerRuns

  datatype Error = OK | EINVAL

  // The work-stealing deque as the sequence that can be reached in it.
  class Deque {
    var tasks: seq<Task>

    constructor ()
      ensures tasks == []
    {
      tasks := [];
    }

    method Push(task: Task)
      modifies this
      ensures tasks == Pushed(old(tasks), task)
    {
      tasks := if |tasks| >= ROOM then [] else tasks + [task];
    }

    method Pop() returns (task: Option<Task>)
      modifies this
      ensures if old(tasks) == [] then task == None && tasks == []
        else task == Some(Last(old(tasks))) && tasks == Init(old(tasks))
    {
      if tasks == [] {
        return None;
      }
      task := Some(Last(tasks));
      tasks := Init(tasks);
    }

    method Steal() returns (task: Option<Task>)
      modifies this
      ensures if old(tasks) == [] then task == None && tasks == []
        else task == Some(old(tasks)[0]) && tasks == old(tasks)[1..]
    {
      if tasks == [] {
        return None;
      }
      task := Some(tasks[0]);
      tasks := tasks[1..];
    }

    /** The last tasks, last first, as many as there are up to the maximum. */
    method PopMultiple(buffer: array<Task>, maxCount: nat) returns (count: nat)
      requires maxCount <= buffer.Length
      modifies this, buffer
      ensures count == if |old(tasks)| < maxCount then |old(tasks)| else maxCount
      ensures tasks == old(tasks)[..|old(tasks)| - count]
      ensures forall k | 0 <= k < count :: buffer[k] == old(tasks)[|old(tasks)| - 1 - k]
    {
      count := 0;
      while count < maxCount
        invariant count <= maxCount && count <= |old(tasks)|
        invariant tasks == old(tasks)[..|old(tasks)| - count]
        invariant forall k | 0 <= k < count :: buffer[k] == old(tasks)[|old(tasks)| - 1 - k]
      {
        var task := Pop();
        if task.None? {
          break;
        }
        buffer[count] := task.value;
        count := count + 1;
      }
    }
  }

  function PushedAll(queue: seq<Task>, xs: seq<Task>): seq<Task>
    decreases |xs|
  {
    if xs == [] then queue else Pushed(PushedAll(queue, xs[..|xs| - 1]), xs[|xs| - 1])
  }

  /** Pushes that all find room append. */
  lemma {:induction false} PushedAllAppends(queue: seq<Task>, xs: seq<Task>)
    requires |queue| + |xs| <= ROOM
    ensures PushedAll(queue, xs) == queue + xs
    decreases |xs|
  {
    if xs != [] {
      PushedAllAppends(queue, xs[..|xs| - 1]);
      assert xs == xs[..|xs| - 1] + [xs[|xs| - 1]];
    }
  }

  class Worker {
    const id: nat
    const localQueue: Deque
    const localBatch: array<Task>
    var batchCount: nat
    var currentTask: Option<Task>

    predicate Valid()
      reads this
    {
      localBatch.Length == BATCH_SIZE && batchCount <= BATCH_SIZE
    }

    function Batch(): seq<Task>
      requires Valid()
      reads this, localBatch
    {
      localBatch[..batchCount]
    }

    constructor (id: nat)
      ensures Valid() && Batch() == [] && currentTask == None && this.id == id
      ensures fresh(localQueue) && localQueue.tasks == [] && fresh(localBatch)
    {
      this.id := id;
      localQueue := new Deque();
      localBatch := new Task[BATCH_SIZE];
      batchCount, currentTask := 0, None;
    }

    /** A full batch goes to the deque in order; any other stays. */
    method MaybeFlushBatch()
      requires Valid()
      modifies `batchCount, localQueue
      ensures Valid()
      ensures if |old(Batch())| == 8
        then Batch() == [] && localQueue.tasks == PushedAll(old(localQueue.tasks), old(Batch()))
        else Batch() == old(Batch()) && localQueue.tasks == old(localQueue.tasks)
      ensures |old(Batch())| == 8 && |old(localQueue.tasks)| + 8 <= 1023 ==>
        localQueue.tasks == old(localQueue.tasks) + old(Batch())
    {
      if batchCount >= BATCH_SIZE {
        for i := 0 to batchCount
          invariant localQueue.tasks == PushedAll(old(localQueue.tasks), localBatch[..i])
        {
          localQueue.Push(localBatch[i]);
          assert localBatch[..i + 1] == localBatch[..i] + [localBatch[i]];
        }
        batchCount := 0;
        if |old(localQueue.tasks)| + BATCH_SIZE <= ROOM {
          PushedAllAppends(old(localQueue.tasks), old(Batch()));
        }
      }
    }

    /** Without a current task an error; with nothing else to run here, no effect; otherwise the
        task joins the batch, which goes to the deque if that fills it. */
    method YieldCurrent() returns (error: Error)
      requires Valid() && (currentTask.Some? ==> batchCount < BATCH_SIZE)
      modifies `batchCount, `currentTask, localBatch, localQueue
      ensures Valid() && (error == EINVAL <==> old(currentTask).None?)
      ensures old(currentTask).None? || (old(Batch()) == [] && old(localQueue.tasks) == []) ==>
        Batch() == old(Batch()) && localQueue.tasks == old(localQueue.tasks) && currentTask == old(currentTask)
      ensures old(currentTask).Some? && (old(Batch()) != [] || old(localQueue.tasks) != []) ==>
        && currentTask == None
        && var batch := old(Batch()) + [old(currentTask).value];
          if |batch| == 8 then Batch() == [] && localQueue.tasks == PushedAll(old(localQueue.tasks), batch)
          else Batch() == batch && localQueue.tasks == old(localQueue.tasks)
      ensures old(currentTask).Some? && |old(Batch())| == 7 && |old(localQueue.tasks)| + 8 <= 1023 ==>
        localQueue.tasks == old(localQueue.tasks) + (old(Batch()) + [old(currentTask).value])
    {
      if currentTask.None? {
        return EINVAL;
      }
      if batchCount == 0 && localQueue.tasks == [] {
        return OK;
      }
      localBatch[batchCount] := currentTask.value;
      batchCount := batchCount + 1;
      assert Batch() == old(Batch()) + [currentTask.value];
      MaybeFlushBatch();
      currentTask := None;
      return OK;
    }

    // The batch, and failing that up to eight tasks of the deque.
    method PickLocal() returns (task: Option<Task>)
      requires Valid()
      modifies `batchCount, localBatch, localQueue
      ensures Valid() && (task.None? <==> old(Batch()) == [] && old(localQueue.tasks) == [])
      ensures task.None? ==> Batch() == [] && localQueue.tasks == []
      ensures old(Batch()) != [] ==>
        task == Some(Last(old(Batch()))) && Batch() == Init(old(Batch())) && localQueue.tasks == old(localQueue.tasks)
      ensures old(Batch()) == [] && old(localQueue.tasks) != [] ==>
        var q := old(localQueue.tasks); var n := if |q| < 8 then |q| else 8;
        && task == Some(q[|q| - n]) && localQueue.tasks == q[..|q| - n]
        && |Batch()| == n - 1 && forall k | 0 <= k < n - 1 :: Batch()[k] == q[|q| - 1 - k]
    {
      if batchCount > 0 {
        batchCount := batchCount - 1;
        assert localBatch[..batchCount] == Init(old(Batch()));
        return Some(localBatch[batchCount]);
      }
      var popped := localQueue.PopMultiple(localBatch, BATCH_SIZE);
      if popped > 0 {
        batchCount := popped - 1;
        return Some(localBatch[batchCount]);
      }
      return None;
    }
  }

  class Scheduler {
    const workers: seq<Worker>
    const globalQueue: SharedMPSCQueue
    ghost const deques: set<Deque>

    ghost predicate Valid()
      reads this, globalQueue, workers
    {
      && globalQueue.Valid()
      && (forall i | 0 <= i < |workers| :: workers[i].id == i && workers[i].Valid() && workers[i].localQueue in deques)
      && (forall i, j | 0 <= i < j < |workers| :: workers[i].localQueue != workers[j].localQueue)
    }

    ghost function QueueOf(i: nat): seq<Task>
      requires i < |workers|
      reads workers[i].localQueue
    {
      workers[i].localQueue.tasks
    }

    constructor (count: nat)
      requires count > 0
      ensures Valid() && |workers| == count
      ensures forall i: nat | i < count :: workers[i].Batch() == [] && QueueOf(i) == []
      ensures globalQueue.shards == Repeat(count, [])
    {
      var made: seq<Worker> := [];
      for i := 0 to count
        invariant |made| == i
        invariant forall j | 0 <= j < i :: made[j].id == j && made[j].Valid() && made[j].Batch() == []
        invariant forall j | 0 <= j < i :: made[j].localQueue.tasks == []
        invariant forall j, k | 0 <= j < k < i :: made[j].localQueue != made[k].localQueue
      {
        var worker := new Worker(i);
        made := made + [worker];
      }
      workers := made;
      globalQueue := new SharedMPSCQueue(count);
      deques := set i | 0 <= i < |made| :: made[i].localQueue;
    }

    /** The sweep over the other workers, twice round from the next one on: the first task of the
        first one, going up from w + 1 and round, that has any. */
    method StealSweep(w: nat) returns (task: Option<Task>, ghost victim: nat)
      requires Valid() && 1 < |workers| && w < |workers| && QueueOf(w) == []
      modifies deques
      ensures task.None? <==> forall v: nat | v < |workers| :: old(QueueOf(v)) == []
      ensures task.None? ==> forall v: nat | v < |workers| :: QueueOf(v) == []
      ensures task.Some? ==>
        && victim < |workers| && victim != w
        && old(QueueOf(victim)) != [] && task == Some(old(QueueOf(victim))[0]) && QueueOf(victim) == old(QueueOf(victim))[1..]
        && (forall u: nat | u < |workers| && (w < u < victim || victim <= w < u || u < victim <= w) :: old(QueueOf(u)) == [])
        && (forall u: nat | u < |workers| && u != victim :: QueueOf(u) == old(QueueOf(u)))
    {
      var count := |workers|;
      var start := (w + 1) % count;
      var attempts := count * 2;
      victim := w;
      for i := 0 to attempts
        invariant forall v: nat | v < |workers| :: QueueOf(v) == old(QueueOf(v))
        invariant forall j: nat | j < i :: old(QueueOf(Victim(w, j, |workers|))) == []
      {
        var other := (start + i) % count;
        assert other == Victim(w, i, |workers|);
        if other == w {
          continue;
        }
        assert QueueOf(other) == old(QueueOf(other));
        task := workers[other].localQueue.Steal();
        if task.Some? {
          victim := other;
          if i >= count {
            VictimsInOrder(w, i - count, count);
          }
          forall u: nat | u < |workers| && (w < u < victim || victim <= w < u || u < victim <= w) ensures old(QueueOf(u)) == [] {
            var j := TriedBefore(w, u, i, count);
          }
          return;
        }
      }
      forall v: nat | v < |workers| ensures old(QueueOf(v)) == [] {
        var j := EveryoneIsAVictim(w, v, |workers|);
      }
      return None, victim;
    }

    /** The worker's next task: the last of its batch; or the oldest of up to eight tasks of
        its deque, the rest of which become its batch; or the global queue's; or the first of
        the next worker's deque, going up and round, that has one. Null exactly when there is none
        anywhere but in other workers' batches. */
    method PickTask(me: Worker, w: nat) returns (task: Option<Task>, ghost victim: nat)
      requires Valid() && w < |workers| && me == workers[w]
      modifies me`batchCount, me.localBatch, deques, globalQueue`shards, globalQueue`totalCount
      ensures Valid()
      ensures task.None? <==>
        && old(me.Batch()) == [] && (forall v: nat | v < |workers| :: old(QueueOf(v)) == [])
        && AllEmpty(old(globalQueue.shards))
      ensures old(me.Batch()) != [] ==>
        task == Some(Last(old(me.Batch()))) && me.Batch() == Init(old(me.Batch())) && QueueOf(w) == old(QueueOf(w))
      ensures old(me.Batch()) == [] && old(QueueOf(w)) != [] ==>
        var q := old(QueueOf(w)); var n := if |q| < 8 then |q| else 8;
        && task == Some(q[|q| - n]) && QueueOf(w) == q[..|q| - n]
        && |me.Batch()| == n - 1 && forall k | 0 <= k < n - 1 :: me.Batch()[k] == q[|q| - 1 - k]
      ensures old(me.Batch()) != [] || old(QueueOf(w)) != [] ==>
        && globalQueue.shards == old(globalQueue.shards)
        && forall v: nat | v < |workers| && v != w :: QueueOf(v) == old(QueueOf(v))
      ensures old(me.Batch()) == [] && old(QueueOf(w)) == [] ==>
        && me.Batch() == []
        && match Source(old(globalQueue.shards), w)
          case Some(k) =>
            && task == Some(old(globalQueue.shards)[k][0])
            && globalQueue.shards == old(globalQueue.shards)[k := old(globalQueue.shards)[k][1..]]
            && forall v: nat | v < |workers| :: QueueOf(v) == old(QueueOf(v))
          case None =>
            && globalQueue.shards == old(globalQueue.shards)
            && (task.Some? ==>
              && victim < |workers| && victim != w && old(QueueOf(victim)) != []
              && (forall u: nat | u < |workers| && (w < u < victim || victim <= w < u || u < victim <= w) :: old(QueueOf(u)) == [])
              && task == Some(old(QueueOf(victim))[0]) && QueueOf(victim) == old(QueueOf(victim))[1..])
            && forall v: nat | v < |workers| && !(task.Some? && v == victim) :: QueueOf(v) == old(QueueOf(v))
    {
      victim := w;
      task := me.PickLocal();
      if task.Some? {
        return;
      }
      assert forall v: nat | v < |workers| && v != w :: QueueOf(v) == old(QueueOf(v));
      task, victim := PickElsewhere(w);
    }

    // PickTask when the worker has nothing of its own.
    method PickElsewhere(w: nat) returns (task: Option<Task>, ghost victim: nat)
      requires Valid() && w < |workers| && QueueOf(w) == []
      modifies deques, globalQueue`shards, globalQueue`totalCount
      ensures Valid()
      ensures task.None? <==>
        (forall v: nat | v < |workers| :: old(QueueOf(v)) == []) && AllEmpty(old(globalQueue.shards))
      ensures match Source(old(globalQueue.shards), w)
        case Some(k) =>
          && task == Some(old(globalQueue.shards)[k][0])
          && globalQueue.shards == old(globalQueue.shards)[k := old(globalQueue.shards)[k][1..]]
          && forall v: nat | v < |workers| :: QueueOf(v) == old(QueueOf(v))
        case None =>
          && globalQueue.shards == old(globalQueue.shards)
          && (task.Some? ==>
            && victim < |workers| && victim != w && old(QueueOf(victim)) != []
            && (forall u: nat | u < |workers| && (w < u < victim || victim <= w < u || u < victim <= w) :: old(QueueOf(u)) == [])
            && task == Some(old(QueueOf(victim))[0]) && QueueOf(victim) == old(QueueOf(victim))[1..])
          && forall v: nat | v < |workers| && !(task.Some? && v == victim) :: QueueOf(v) == old(QueueOf(v))
    {
      victim := w;
      task := globalQueue.Pop(w);
      if task.Some? {
        return;
      }
      if |workers| <= 1 {
        return None, victim;
      }
      assert forall v: nat | v < |workers| :: QueueOf(v) == old(QueueOf(v));
      task, victim := StealSweep(w);
    }
  }
}
