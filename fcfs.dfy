/**
 * fcfs_scheduler.c: the FCFS ready queue, a ten-slot ring that keeps one
 * slot empty, the batch creation of the scheduler thread, one iteration of
 * a core worker, and the start/stop resets. Locks, condition variables and
 * threads are left out: each step is one sequential call.
 */
module Fcfs {
  import opened Wrappers
  import opened RootProcess

  /**
   * The struct of a process that has run to completion on core coreId: on
   * the core, every print made, finished, with the clock readings start and
   * end as its times.
   */
  function Ran(r: ProcRecord, coreId: int, start: int, end: int): (done: ProcRecord)
    ensures done.burstTime == r.burstTime && done.totalPrints == r.totalPrints && done.name == r.name
    ensures done.isFinished == 1 && done.coreAssigned == coreId
    ensures r.burstTime > 0 ==> done.finishedPrint == r.finishedPrint + r.burstTime
    ensures r.burstTime <= 0 ==> done.finishedPrint == r.finishedPrint
  {
    r.(coreAssigned := coreId, startTime := start, endTime := end, isFinished := 1,
       finishedPrint := r.finishedPrint + (if r.burstTime > 0 then r.burstTime else 0))
  }

  /** What one pass of the `core_worker` loop does. */
  datatype Outcome =
    | Exit   // queue empty and the stop flag set: the worker leaves its loop
    | Wait   // queue empty, no stop: the worker waits on the condition variable
    | Handled // an entry was dequeued and handled

  /** How one round of a batch loop ends. */
  datatype RoundStatus =
    | Added     // a slot was reset and offered to the queue
    | Full      // `find_free_process_slot` returned -1: the loop breaks
    | Undefined // the burst draw is undefined (see RandomBurst)

  /** The globals `queue`, `front`, `rear` and `stop_scheduler`. */
  class FcfsScheduler {
    var queue: array<Ptr>
    var front: nat
    var rear: nat
    var stopScheduler: bool

    ghost predicate Valid()
      reads this
    {
      queue.Length == MAX_PROCESSES && front < MAX_PROCESSES && rear < MAX_PROCESSES
    }

    /** The number of queued entries: (rear - front) mod MAX_PROCESSES. */
    function Count(): (n: nat)
      requires Valid()
      reads this
      ensures n < MAX_PROCESSES
    {
      if rear >= front then rear - front else rear + MAX_PROCESSES - front
    }

    /** The queued processes, the one `dequeue` returns next first. */
    function Contents(): (r: seq<Ptr>)
      requires Valid()
      reads this, queue
      ensures |r| == Count() && |r| <= MAX_PROCESSES - 1
    {
      Ring(queue[..], front, Count())
    }

    /** The zero-initialised globals. */
    constructor ()
      ensures Valid() && fresh(queue) && Contents() == [] && !stopScheduler
    {
      queue := new Ptr[MAX_PROCESSES](_ => Null);
      front := 0;
      rear := 0;
      stopScheduler := false;
    }

    /**
     * `enqueue`: refused, with nothing changed, when the ring holds nine
     * entries ((rear + 1) mod MAX_PROCESSES == front); otherwise p goes in
     * at rear and leaves after every entry already queued.
     */
    method Enqueue(p: Ptr)
      requires Valid()
      modifies this`rear, queue
      ensures Valid()
      ensures old(Count()) == MAX_PROCESSES - 1 ==> rear == old(rear) && queue[..] == old(queue[..])
      ensures old(Count()) < MAX_PROCESSES - 1 ==> Contents() == old(Contents()) + [p]
      ensures old(Count()) < MAX_PROCESSES - 1 ==> queue[old(rear)] == p && rear == (old(rear) + 1) % MAX_PROCESSES
    {
      if (rear + 1) % MAX_PROCESSES == front {
        return;
      }
      RingAppend(queue[..], front, Count(), p);
      queue[rear] := p;
      rear := (rear + 1) % MAX_PROCESSES;
    }

    /**
     * `dequeue`: NULL exactly when front == rear; otherwise the oldest
     * entry, with front moved on modulo MAX_PROCESSES.
     */
    method Dequeue() returns (p: Ptr)
      requires Valid()
      modifies this`front
      ensures Valid()
      ensures old(Count()) == 0 ==> p == Null && front == old(front)
      ensures old(Count()) > 0 ==>
                && p == old(Contents())[0] && Contents() == old(Contents())[1..]
                && front == (old(front) + 1) % MAX_PROCESSES
    {
      if front == rear {
        return Null;
      }
      p := queue[front];
      assert Contents()[0] == queue[Slot(front + 0)];
      RingAdvance(queue[..], front, Count());
      front := (front + 1) % MAX_PROCESSES;
    }

    /** `start_scheduler` without the threads and the seeding of `rand`: an empty queue and no stop. */
    method Start()
      requires Valid()
      modifies this`front, this`rear, this`stopScheduler
      ensures Valid() && front == 0 && rear == 0 && !stopScheduler && Contents() == []
    {
      front := 0;
      rear := 0;
      stopScheduler := false;
    }

    /** `stop_scheduler_now`: the stop flag set and the queue emptied. */
    method Stop()
      requires Valid()
      modifies this`front, this`rear, this`stopScheduler
      ensures Valid() && front == 0 && rear == 0 && stopScheduler && Contents() == []
    {
      stopScheduler := true;
      front := 0;
      rear := 0;
    }

    /** One creation of a batch loop: slot idx is reset by Spawn and its pointer offered to `enqueue`. */
    method Admit(pool: ProcessPool, idx: nat, burst: int) returns (p: Ptr, ghost fits: bool)
      requires Valid() && pool.Valid() && queue != pool.taskList && idx < MAX_PROCESSES
      modifies this`rear, queue, pool`globalProcessCounter, pool.processList, pool.taskList
      ensures Valid() && pool.Valid() && p == At(idx)
      ensures pool.State() == Reset(old(pool.State()), idx, burst)
      ensures fits == (old(Count()) < MAX_PROCESSES - 1)
      ensures Contents() == old(Contents()) + (if fits then [p] else [])
    {
      p := pool.Spawn(idx, burst);
      fits := Count() < MAX_PROCESSES - 1;
      Enqueue(p);
    }

    /**
     * One round of a batch loop (round i of n): `find_free_process_slot`;
     * when it finds a slot, the burst from draw i; when that is defined, the
     * slot is reset and offered to `enqueue`. The ghost bookkeeping of the
     * loop: the queue is what it held before the batch (c0) followed by the
     * admitted pointers the ring had room for, and all of them while it had
     * room.
     */
    method Round(pool: ProcessPool, i: nat, n: int, minIns: int, maxIns: int, draws: nat -> nat,
                 ghost c0: seq<Ptr>, ghost made: seq<Ptr>, ghost queued: seq<Ptr>)
      returns (status: RoundStatus, ghost made': seq<Ptr>, ghost queued': seq<Ptr>)
      requires Valid() && pool.Valid() && queue != pool.taskList && i < n
      requires InInt32(minIns) && InInt32(maxIns)
      requires Contents() == c0 + queued && queued <= made
      requires |queued| < |made| ==> |c0| + |queued| == MAX_PROCESSES - 1
      modifies this`rear, queue, pool`globalProcessCounter, pool.processList, pool.taskList
      ensures Valid() && pool.Valid()
      ensures status == Added ==>
                RunFrom(pool.State(), i + 1, n, minIns, maxIns, draws, made') == RunFrom(old(pool.State()), i, n, minIns, maxIns, draws, made)
      ensures status != Added ==>
                && BatchRun(pool.State(), made, status == Full) == RunFrom(old(pool.State()), i, n, minIns, maxIns, draws, made)
                && made' == made && queued' == queued
      ensures status == Full ==> forall k :: 0 <= k < MAX_PROCESSES ==> pool.processList[k].burstTime != 0
      ensures |made'| == |made| + (if status == Added then 1 else 0)
      ensures Contents() == c0 + queued' && queued' <= made'
      ensures |queued'| < |made'| ==> |c0| + |queued'| == MAX_PROCESSES - 1
    {
      made', queued' := made, queued;
      var idx := pool.FindFreeProcessSlot();
      if idx < 0 {
        RunStop(pool.State(), i, n, minIns, maxIns, draws, made);
        return Full, made, queued;
      }
      var burst := RandomBurst(minIns, maxIns, draws(i));
      if burst.None? {
        RunStop(pool.State(), i, n, minIns, maxIns, draws, made);
        return Undefined, made, queued;
      }
      status := Added;
      RunStep(pool.State(), i, n, minIns, maxIns, draws, made, idx, burst.value);
      var p, fits := Admit(pool, idx, burst.value);
      made' := made + [p];
      if fits {
        AppendAssoc(c0, queued, [p]);
        queued' := queued + [p];
      } else {
        assert Contents() == c0 + queued + [];
      }
    }

    /**
     * The batch loop of `scheduler_thread` and of `core_worker` after a
     * run: up to batchFreq times, a free slot is taken, given a burst drawn
     * from [minIns, maxIns] with the next `rand()` value (draws(i) for the
     * i-th) and enqueued. It stops at the first -1 from
     * `find_free_process_slot`; `defined` is false when a draw is undefined.
     * A process the full ring refuses keeps its slot but is not queued.
     */
    method CreateBatch(pool: ProcessPool, batchFreq: int, minIns: int, maxIns: int, draws: nat -> nat)
      returns (created: nat, defined: bool, ghost made: seq<Ptr>, ghost queued: seq<Ptr>)
      requires Valid() && pool.Valid() && queue != pool.taskList
      requires InInt32(minIns) && InInt32(maxIns)
      modifies this`rear, queue, pool`globalProcessCounter, pool.processList, pool.taskList
      ensures Valid() && pool.Valid()
      ensures var r := RunFrom(old(pool.State()), 0, batchFreq, minIns, maxIns, draws, []);
              pool.State() == r.pool && made == r.made && defined == r.defined
      ensures created == |made|
      ensures Contents() == old(Contents()) + queued
      ensures queued <= made
      ensures old(Count()) + created < MAX_PROCESSES ==> queued == made
    {
      created, defined, made, queued := 0, true, [], [];
      ghost var total := RunFrom(pool.State(), 0, batchFreq, minIns, maxIns, draws, []);
      var i: nat := 0;
      while i < batchFreq
        invariant Valid() && pool.Valid()
        invariant created == |made| == i
        invariant RunFrom(pool.State(), i, batchFreq, minIns, maxIns, draws, made) == total
        invariant Contents() == old(Contents()) + queued
        invariant queued <= made && (|queued| < |made| ==> old(Count()) + |queued| == MAX_PROCESSES - 1)
      {
        var status;
        status, made, queued := Round(pool, i, batchFreq, minIns, maxIns, draws, old(Contents()), made, queued);
        if status != Added {
          defined := status == Full;
          return;
        }
        created := created + 1;
        i := i + 1;
      }
      RunStop(pool.State(), i, batchFreq, minIns, maxIns, draws, made);
    }

    /**
     * The handling of a dequeued pointer p to slot k in `core_worker`: a
     * finished process is skipped; an unfinished one runs to completion
     * (start and end are the clock readings), its copy is archived while
     * `finished_list` has room, and unless the stop flag is set a new batch
     * is created.
     */
    method Handle(pool: ProcessPool, p: Ptr, coreId: int, start: int, end: int,
                  batchFreq: int, minIns: int, maxIns: int, draws: nat -> nat)
      returns (defined: bool, ghost made: seq<Ptr>, ghost queued: seq<Ptr>)
      requires Valid() && pool.Valid() && queue != pool.taskList
      requires InInt32(minIns) && InInt32(maxIns)
      requires p.At? && p.slot < MAX_PROCESSES
      modifies this`rear, queue, pool`globalProcessCounter, pool.processList, pool.taskList
      modifies pool`finishedCount, pool.finishedList
      ensures Valid() && pool.Valid()
      ensures old(pool.processList[p.slot].isFinished) != 0 ==>
                && pool.State() == old(pool.State()) && Contents() == old(Contents())
                && pool.finishedCount == old(pool.finishedCount)
      ensures var ran := Ran(old(pool.processList[p.slot]), coreId, start, end);
              old(pool.processList[p.slot].isFinished) == 0 && old(pool.finishedCount) < MAX_FINISHED_PROCESSES ==>
                && pool.finishedCount == old(pool.finishedCount) + 1
                && pool.finishedList[old(pool.finishedCount)] == ran
      ensures old(pool.processList[p.slot].isFinished) == 0 && old(pool.finishedCount) >= MAX_FINISHED_PROCESSES ==>
                pool.finishedCount == old(pool.finishedCount)
      ensures var ran := WithRecord(old(pool.State()), p.slot, Ran(old(pool.processList[p.slot]), coreId, start, end));
              old(pool.processList[p.slot].isFinished) == 0 && stopScheduler ==>
                pool.State() == ran && Contents() == old(Contents())
      ensures var ran := WithRecord(old(pool.State()), p.slot, Ran(old(pool.processList[p.slot]), coreId, start, end));
              var r := RunFrom(ran, 0, batchFreq, minIns, maxIns, draws, []);
              old(pool.processList[p.slot].isFinished) == 0 && !stopScheduler ==>
                && pool.State() == r.pool && made == r.made && defined == r.defined
                && Contents() == old(Contents()) + queued && queued <= made
      ensures old(pool.processList[p.slot].isFinished) == 0 && old(pool.processList[p.slot].burstTime) != 0 ==>
                pool.processList[p.slot] == Ran(old(pool.processList[p.slot]), coreId, start, end)
    {
      defined, made, queued := true, [], [];
      var k := p.slot;
      if pool.processList[k].isFinished == 0 {
        pool.RunToCompletion(p, coreId, start, end);
        pool.Archive(pool.processList[k]);
        if !stopScheduler {
          ghost var ran := pool.State();
          var created, ok;
          created, ok, made, queued := CreateBatch(pool, batchFreq, minIns, maxIns, draws);
          defined := ok;
          if ran.records[k].burstTime != 0 {
            RunKeepsBusy(ran, 0, batchFreq, minIns, maxIns, draws, [], k);
          }
        }
      }
    }

    /**
     * One pass of the `core_worker` loop for core coreId: an empty queue
     * makes the worker leave (stop set) or wait, and changes nothing;
     * otherwise the oldest entry is dequeued and, when not NULL, handled.
     */
    method WorkerStep(pool: ProcessPool, coreId: int, start: int, end: int,
                      batchFreq: int, minIns: int, maxIns: int, draws: nat -> nat)
      returns (outcome: Outcome, p: Ptr, defined: bool, ghost made: seq<Ptr>, ghost queued: seq<Ptr>)
      requires Valid() && pool.Valid() && queue != pool.taskList
      requires InInt32(minIns) && InInt32(maxIns)
      requires forall q :: q in Contents() ==> q.At? ==> q.slot < MAX_PROCESSES
      modifies this`front, this`rear, queue, pool`globalProcessCounter, pool.processList, pool.taskList
      modifies pool`finishedCount, pool.finishedList
      ensures Valid() && pool.Valid()
      ensures old(Count()) == 0 ==> outcome == (if stopScheduler then Exit else Wait) && p == Null && defined
      ensures old(Count()) == 0 ==>
                Contents() == old(Contents()) && pool.State() == old(pool.State()) && pool.finishedCount == old(pool.finishedCount)
      ensures old(Count()) > 0 ==> outcome == Handled && p == old(Contents())[0]
      ensures p.At? ==> p.slot < MAX_PROCESSES
      ensures old(Count()) > 0 && (p.Null? || old(pool.processList[p.slot].isFinished) != 0) ==>
                && Contents() == old(Contents())[1..] && pool.State() == old(pool.State())
                && pool.finishedCount == old(pool.finishedCount)
      ensures old(Count()) > 0 && p.At? && old(pool.processList[p.slot].isFinished) == 0 && old(pool.finishedCount) < MAX_FINISHED_PROCESSES ==>
                && pool.finishedCount == old(pool.finishedCount) + 1
                && pool.finishedList[old(pool.finishedCount)] == Ran(old(pool.processList[p.slot]), coreId, start, end)
      ensures var ran := if p.At? then WithRecord(old(pool.State()), p.slot, Ran(old(pool.processList[p.slot]), coreId, start, end))
                         else old(pool.State());
              old(Count()) > 0 && p.At? && old(pool.processList[p.slot].isFinished) == 0 && stopScheduler ==>
                pool.State() == ran && Contents() == old(Contents())[1..]
      ensures var ran := if p.At? then WithRecord(old(pool.State()), p.slot, Ran(old(pool.processList[p.slot]), coreId, start, end))
                         else old(pool.State());
              var r := RunFrom(ran, 0, batchFreq, minIns, maxIns, draws, []);
              old(Count()) > 0 && p.At? && old(pool.processList[p.slot].isFinished) == 0 && !stopScheduler ==>
                && pool.State() == r.pool && made == r.made && defined == r.defined
                && Contents() == old(Contents())[1..] + queued
    {
      defined, made, queued := true, [], [];
      if front == rear {
        outcome := if stopScheduler then Exit else Wait;
        return outcome, Null, true, [], [];
      }
      outcome := Handled;
      p := Dequeue();
      if p.At? {
        assert p in old(Contents());
        defined, made, queued := Handle(pool, p, coreId, start, end, batchFreq, minIns, maxIns, draws);
      }
    }
  }
}
