/**
 * rr_scheduler.c: the Round-Robin ready queue (ever-growing `rr_front` and
 * `rr_rear` counters over a ten-slot array, used modulo its size, with no
 * overflow check), the slice rule, the dispatch of one process by a core
 * worker, batch creation and the start/stop resets. Locks, condition
 * variables and threads are left out: each step is one sequential call.
 */
module RoundRobin {
  import opened Wrappers
  import opened RootProcess

  /** `time_slice`: the quantum, or what remains of the burst when that is less. */
  function TimeSlice(quantum: int, burst: int, finished: int): (slice: int)
    ensures slice <= quantum && slice <= burst - finished
    ensures slice == quantum || slice == burst - finished
  {
    if burst - finished >= quantum then quantum else burst - finished
  }

  /**
   * The struct after one dispatch on core coreId at clock reading now:
   * on the core, the start time set only when it was still 0, and the
   * prints of the slice made (none for a slice below 1).
   */
  function Sliced(r: ProcRecord, coreId: int, now: int, quantum: int): (s: ProcRecord)
    ensures s.coreAssigned == coreId && s.burstTime == r.burstTime && s.isFinished == r.isFinished
    ensures s.startTime == (if r.startTime == 0 then now else r.startTime)
    ensures var slice := TimeSlice(quantum, r.burstTime, r.finishedPrint);
      s.finishedPrint == r.finishedPrint + (if slice > 0 then slice else 0)
  {
    var slice := TimeSlice(quantum, r.burstTime, r.finishedPrint);
    r.(coreAssigned := coreId,
       startTime := if r.startTime == 0 then now else r.startTime,
       finishedPrint := r.finishedPrint + (if slice > 0 then slice else 0))
  }

  /** A slice never takes the prints past the burst. */
  lemma SliceStaysWithinBurst(r: ProcRecord, coreId: int, now: int, quantum: int)
    requires r.finishedPrint <= r.burstTime
    ensures r.finishedPrint <= Sliced(r, coreId, now, quantum).finishedPrint <= r.burstTime
  {
  }

  /** With a quantum of at least 1, a dispatch finishes the process exactly when what remains fits in the quantum. */
  lemma SliceFinishesIff(r: ProcRecord, coreId: int, now: int, quantum: int)
    requires 1 <= quantum && r.finishedPrint <= r.burstTime
    ensures Sliced(r, coreId, now, quantum).finishedPrint >= r.burstTime <==> r.burstTime - r.finishedPrint <= quantum
  {
  }

  /** With a quantum below 1, an unfinished process makes no progress however often it is dispatched. */
  lemma NoProgressWithoutQuantum(r: ProcRecord, coreId: int, now: int, quantum: int)
    requires quantum <= 0 && r.finishedPrint < r.burstTime
    ensures Sliced(r, coreId, now, quantum).finishedPrint == r.finishedPrint
  {
  }

  /** The number of dispatches a process with `remaining` prints left needs until it is finished. */
  function Dispatches(remaining: int, quantum: int): (n: nat)
    requires quantum >= 1
    decreases remaining
  {
    if remaining <= quantum then 1 else 1 + Dispatches(remaining - quantum, quantum)
  }

  /** A process with remaining >= 1 prints left is dispatched ceil(remaining / quantum) times. */
  lemma {:induction false} DispatchesIsCeiling(remaining: int, quantum: int)
    requires quantum >= 1 && remaining >= 1
    ensures var n := Dispatches(remaining, quantum); (n - 1) * quantum < remaining <= n * quantum
    decreases remaining
  {
    if remaining > quantum {
      DispatchesIsCeiling(remaining - quantum, quantum);
      var m := Dispatches(remaining - quantum, quantum);
      assert (m + 1) * quantum == m * quantum + quantum;
    }
  }

  /**
   * Dispatches is what repeated slices do: starting at finishedPrint f of a
   * burst b with quantum q, the process is finished after Dispatches(b - f, q)
   * slices and not before.
   */
  lemma {:induction false} DispatchesFinish(r: ProcRecord, coreId: int, now: int, quantum: int)
    requires quantum >= 1 && r.finishedPrint < r.burstTime
    ensures var s := Sliced(r, coreId, now, quantum);
      && (s.finishedPrint >= s.burstTime <==> Dispatches(r.burstTime - r.finishedPrint, quantum) == 1)
      && (s.finishedPrint < s.burstTime ==>
            Dispatches(r.burstTime - r.finishedPrint, quantum) == 1 + Dispatches(s.burstTime - s.finishedPrint, quantum))
  {
    var s := Sliced(r, coreId, now, quantum);
    if r.burstTime - r.finishedPrint > quantum {
      assert s.burstTime - s.finishedPrint == r.burstTime - r.finishedPrint - quantum;
    }
  }

  /** The struct a dispatch that completes the burst leaves: finished, with end as its end time. */
  function Finished(r: ProcRecord, end: int): (done: ProcRecord)
    ensures done.isFinished == 1 && done.endTime == end && done.finishedPrint == r.finishedPrint
  {
    r.(isFinished := 1, endTime := end)
  }

  /** What one pass of the `rr_core_worker` loop does. */
  datatype Outcome =
    | Exit    // queue empty and the stop flag set: the worker leaves its loop
    | Wait    // queue empty, no stop: the worker waits on the condition variable
    | Handled // an entry was dequeued and handled

  /** `x mod MAX_PROCESSES` seen from the slot of a smaller count. */
  lemma SlotOfSum(x: nat, n: nat)
    requires n <= MAX_PROCESSES
    ensures Slot(x % MAX_PROCESSES + n) == (x + n) % MAX_PROCESSES
  {
    var q := x / MAX_PROCESSES;
    assert x == MAX_PROCESSES * q + x % MAX_PROCESSES;
    assert x + n == MAX_PROCESSES * q + (x % MAX_PROCESSES + n);
  }

  /** How one round of `create_batch_processes` ends. */
  datatype RoundStatus =
    | Added     // a slot was reset and enqueued
    | Full      // `find_free_process_slot` returned -1: the loop breaks
    | Undefined // the burst draw is undefined (see RandomBurst)

  /** The globals `rr_queue`, `rr_front`, `rr_rear` and `stop_rr_scheduler`. */
  class RrScheduler {
    var rrQueue: array<Ptr>
    var rrFront: nat
    var rrRear: nat
    var stopRrScheduler: bool

    /** The counters only grow, and front never passes rear. */
    ghost predicate Valid()
      reads this
    {
      rrQueue.Length == MAX_PROCESSES && rrFront <= rrRear
    }

    /** The number of entries enqueued and not yet dequeued. */
    function Count(): (n: nat)
      requires Valid()
      reads this
    {
      rrRear - rrFront
    }

    /**
     * The queued pointers, oldest first, while no more than
     * MAX_PROCESSES are queued (beyond that newer entries overwrite older
     * ones).
     */
    function Contents(): (r: seq<Ptr>)
      requires Valid() && Count() <= MAX_PROCESSES
      reads this, rrQueue
      ensures |r| == Count()
    {
      Ring(rrQueue[..], rrFront % MAX_PROCESSES, Count())
    }

    /** The zero-initialised globals. */
    constructor ()
      ensures Valid() && fresh(rrQueue) && Count() == 0 && Contents() == [] && !stopRrScheduler
    {
      rrQueue := new Ptr[MAX_PROCESSES](_ => Null);
      rrFront := 0;
      rrRear := 0;
      stopRrScheduler := false;
    }

    /**
     * `rr_enqueue`: p goes into slot rr_rear mod MAX_PROCESSES and rr_rear
     * grows by one, with no check; p leaves after every entry already
     * queued as long as fewer than MAX_PROCESSES were, and otherwise
     * overwrites the oldest.
     */
    method Enqueue(p: Ptr)
      requires Valid()
      modifies this`rrRear, rrQueue
      ensures Valid() && rrRear == old(rrRear) + 1
      ensures rrQueue[..] == old(rrQueue[..])[old(rrRear) % MAX_PROCESSES := p]
      ensures old(Count()) < MAX_PROCESSES ==> Contents() == old(Contents()) + [p]
      ensures old(Count()) == MAX_PROCESSES ==> rrQueue[rrFront % MAX_PROCESSES] == p
    {
      if Count() < MAX_PROCESSES {
        SlotOfSum(rrFront, Count());
        RingAppend(rrQueue[..], rrFront % MAX_PROCESSES, Count(), p);
      } else if Count() == MAX_PROCESSES {
        SlotOfSum(rrFront, Count());
      }
      rrQueue[rrRear % MAX_PROCESSES] := p;
      rrRear := rrRear + 1;
    }

    /**
     * `rr_dequeue`: NULL exactly when rr_front == rr_rear; otherwise the
     * entry in slot rr_front mod MAX_PROCESSES, the oldest while no more
     * than MAX_PROCESSES are queued, with rr_front one higher.
     */
    method Dequeue() returns (p: Ptr)
      requires Valid()
      modifies this`rrFront
      ensures Valid()
      ensures old(Count()) == 0 ==> p == Null && rrFront == old(rrFront)
      ensures old(Count()) > 0 ==> p == rrQueue[old(rrFront) % MAX_PROCESSES] && rrFront == old(rrFront) + 1
      ensures 0 < old(Count()) <= MAX_PROCESSES ==> p == old(Contents())[0] && Contents() == old(Contents())[1..]
    {
      if rrFront == rrRear {
        return Null;
      }
      p := rrQueue[rrFront % MAX_PROCESSES];
      if Count() <= MAX_PROCESSES {
        assert Contents()[0] == rrQueue[Slot(rrFront % MAX_PROCESSES + 0)];
        SlotOfSum(rrFront, 1);
        RingAdvance(rrQueue[..], rrFront % MAX_PROCESSES, Count());
      }
      rrFront := rrFront + 1;
    }

    /** `start_rr_scheduler`'s resets, before its first batch: an empty queue and no stop. */
    method Reset()
      requires Valid()
      modifies this`rrFront, this`rrRear, this`stopRrScheduler
      ensures Valid() && rrFront == 0 && rrRear == 0 && !stopRrScheduler && Contents() == []
    {
      rrFront := 0;
      rrRear := 0;
      stopRrScheduler := false;
    }

    /** `stop_rr_scheduler_now`: the stop flag set and the queue emptied. */
    method Stop()
      requires Valid()
      modifies this`rrFront, this`rrRear, this`stopRrScheduler
      ensures Valid() && rrFront == 0 && rrRear == 0 && stopRrScheduler && Contents() == []
    {
      stopRrScheduler := true;
      rrFront := 0;
      rrRear := 0;
    }

    /** One creation of `create_batch_processes`: slot idx is reset by Spawn and its pointer enqueued. */
    method Admit(pool: ProcessPool, idx: nat, burst: int) returns (p: Ptr)
      requires Valid() && pool.Valid() && rrQueue != pool.taskList && idx < MAX_PROCESSES
      modifies this`rrRear, rrQueue, pool`globalProcessCounter, pool.processList, pool.taskList
      ensures Valid() && pool.Valid() && p == At(idx) && rrRear == old(rrRear) + 1
      ensures pool.State() == RootProcess.Reset(old(pool.State()), idx, burst)
      ensures old(Count()) < MAX_PROCESSES ==> Contents() == old(Contents()) + [p]
    {
      p := pool.Spawn(idx, burst);
      Enqueue(p);
    }

    /**
     * One round of `create_batch_processes` (round i of n):
     * `find_free_process_slot`; when it finds a slot, the burst from draw
     * i; when that is defined, the slot is reset and enqueued. The ghost
     * bookkeeping of the loop: n0 entries were queued before the batch (c0
     * while they fit) and the pointers made so far follow them.
     */
    method Round(pool: ProcessPool, i: nat, n: int, minIns: int, maxIns: int, draws: nat -> nat,
                 ghost n0: nat, ghost c0: seq<Ptr>, ghost made: seq<Ptr>)
      returns (status: RoundStatus, ghost made': seq<Ptr>)
      requires Valid() && pool.Valid() && rrQueue != pool.taskList && i < n
      requires InInt32(minIns) && InInt32(maxIns)
      requires Count() == n0 + |made|
      requires n0 + |made| <= MAX_PROCESSES ==> Contents() == c0 + made
      modifies this`rrRear, rrQueue, pool`globalProcessCounter, pool.processList, pool.taskList
      ensures Valid() && pool.Valid() && rrFront == old(rrFront)
      ensures status == Added ==>
                RunFrom(pool.State(), i + 1, n, minIns, maxIns, draws, made') == RunFrom(old(pool.State()), i, n, minIns, maxIns, draws, made)
      ensures status != Added ==>
                && BatchRun(pool.State(), made, status == Full) == RunFrom(old(pool.State()), i, n, minIns, maxIns, draws, made)
                && made' == made
      ensures status == Full ==> forall k :: 0 <= k < MAX_PROCESSES ==> pool.processList[k].burstTime != 0
      ensures |made'| == |made| + (if status == Added then 1 else 0)
      ensures Count() == n0 + |made'|
      ensures n0 + |made'| <= MAX_PROCESSES ==> Contents() == c0 + made'
    {
      made' := made;
      var idx := pool.FindFreeProcessSlot();
      if idx < 0 {
        RunStop(pool.State(), i, n, minIns, maxIns, draws, made);
        return Full, made;
      }
      var burst := RandomBurst(minIns, maxIns, draws(i));
      if burst.None? {
        RunStop(pool.State(), i, n, minIns, maxIns, draws, made);
        return Undefined, made;
      }
      status := Added;
      RunStep(pool.State(), i, n, minIns, maxIns, draws, made, idx, burst.value);
      var p := Admit(pool, idx, burst.value);
      made' := made + [p];
      if n0 + |made'| <= MAX_PROCESSES {
        AppendAssoc(c0, made, [p]);
      }
    }

    /**
     * `create_batch_processes(batchSize)`: up to batchSize times, a free
     * slot is taken, given a burst drawn from [minIns, maxIns] with the next
     * `rand()` value (draws(i) for the i-th) and enqueued. It stops at the
     * first -1 from `find_free_process_slot`; `defined` is false when a draw
     * is undefined.
     */
    method CreateBatch(pool: ProcessPool, batchSize: int, minIns: int, maxIns: int, draws: nat -> nat)
      returns (created: nat, defined: bool, ghost made: seq<Ptr>)
      requires Valid() && pool.Valid() && rrQueue != pool.taskList
      requires InInt32(minIns) && InInt32(maxIns)
      modifies this`rrRear, rrQueue, pool`globalProcessCounter, pool.processList, pool.taskList
      ensures Valid() && pool.Valid() && rrFront == old(rrFront)
      ensures var r := RunFrom(old(pool.State()), 0, batchSize, minIns, maxIns, draws, []);
              pool.State() == r.pool && made == r.made && defined == r.defined
      ensures created == |made| && (batchSize <= 0 ==> created == 0) && (batchSize > 0 ==> created <= batchSize)
      ensures rrRear == old(rrRear) + created
      ensures pool.globalProcessCounter == old(pool.globalProcessCounter) + created
      ensures old(Count()) + created <= MAX_PROCESSES ==> Contents() == old(Contents()) + made
      ensures defined && created < batchSize ==> forall k :: 0 <= k < MAX_PROCESSES ==> pool.processList[k].burstTime != 0
    {
      created, defined, made := 0, true, [];
      ghost var total := RunFrom(pool.State(), 0, batchSize, minIns, maxIns, draws, []);
      RunFromCounts(pool.State(), 0, batchSize, minIns, maxIns, draws, []);
      var i := 0;
      while i < batchSize
        invariant Valid() && pool.Valid() && rrFront == old(rrFront)
        invariant 0 <= i && (if batchSize > 0 then i <= batchSize else i == 0) && created == |made| == i
        invariant RunFrom(pool.State(), i, batchSize, minIns, maxIns, draws, made) == total
        invariant rrRear == old(rrRear) + created && Count() == old(Count()) + |made|
        invariant old(Count()) + |made| <= MAX_PROCESSES ==> Contents() == old(Contents()) + made
      {
        var status;
        status, made := Round(pool, i, batchSize, minIns, maxIns, draws, old(Count()),
                              if old(Count()) <= MAX_PROCESSES then old(Contents()) else [], made);
        if status != Added {
          defined := status == Full;
          return;
        }
        created := created + 1;
        i := i + 1;
      }
      RunStop(pool.State(), i, batchSize, minIns, maxIns, draws, made);
    }

    /**
     * `start_rr_scheduler` without the threads and the seeding of `rand`:
     * the resets, then a first batch of batchFreq on the pool as it is.
     */
    method Start(pool: ProcessPool, batchFreq: int, minIns: int, maxIns: int, draws: nat -> nat)
      returns (created: nat, defined: bool, ghost made: seq<Ptr>)
      requires Valid() && pool.Valid() && rrQueue != pool.taskList
      requires InInt32(minIns) && InInt32(maxIns)
      modifies this`rrFront, this`rrRear, this`stopRrScheduler, rrQueue, pool`globalProcessCounter, pool.processList, pool.taskList
      ensures Valid() && pool.Valid() && !stopRrScheduler && rrFront == 0 && rrRear == created
      ensures var r := RunFrom(old(pool.State()), 0, batchFreq, minIns, maxIns, draws, []);
              pool.State() == r.pool && made == r.made && defined == r.defined
      ensures created == |made| && (created <= MAX_PROCESSES ==> Contents() == made)
    {
      Reset();
      created, defined, made := CreateBatch(pool, batchFreq, minIns, maxIns, draws);
    }

    /**
     * The handling of a dequeued pointer p to an unfinished process (slot
     * k) by core coreId at clock reading now: one slice is run; a process
     * whose prints have reached its burst is marked finished (end time
     * end), archived while `finished_list` has room, and followed by a new
     * batch; any other goes back to the tail of the queue.
     */
    method Dispatch(pool: ProcessPool, p: Ptr, coreId: int, now: int, end: int, quantum: int,
                    batchFreq: int, minIns: int, maxIns: int, draws: nat -> nat)
      returns (finished: bool, defined: bool, ghost made: seq<Ptr>)
      requires Valid() && pool.Valid() && rrQueue != pool.taskList
      requires InInt32(minIns) && InInt32(maxIns)
      requires p.At? && p.slot < MAX_PROCESSES
      modifies this`rrRear, rrQueue, pool`globalProcessCounter, pool.processList, pool.taskList
      modifies pool`finishedCount, pool.finishedList
      ensures Valid() && pool.Valid() && rrFront == old(rrFront)
      ensures var s := Sliced(old(pool.processList[p.slot]), coreId, now, quantum);
              finished == (s.finishedPrint >= s.burstTime)
      ensures var s := Sliced(old(pool.processList[p.slot]), coreId, now, quantum);
              !finished ==>
                && pool.State() == WithRecord(old(pool.State()), p.slot, s)
                && rrRear == old(rrRear) + 1 && pool.finishedCount == old(pool.finishedCount) && defined && made == []
      ensures !finished && old(Count()) < MAX_PROCESSES ==> Contents() == old(Contents()) + [p]
      ensures var done := Finished(Sliced(old(pool.processList[p.slot]), coreId, now, quantum), end);
              finished && old(pool.finishedCount) < MAX_FINISHED_PROCESSES ==>
                && pool.finishedCount == old(pool.finishedCount) + 1
                && pool.finishedList[old(pool.finishedCount)] == done
      ensures finished && old(pool.finishedCount) >= MAX_FINISHED_PROCESSES ==> pool.finishedCount == old(pool.finishedCount)
      ensures var done := Finished(Sliced(old(pool.processList[p.slot]), coreId, now, quantum), end);
              var r := RunFrom(WithRecord(old(pool.State()), p.slot, done), 0, batchFreq, minIns, maxIns, draws, []);
              finished ==>
                && pool.State() == r.pool && made == r.made && defined == r.defined
                && rrRear == old(rrRear) + |made|
                && (old(Count()) + |made| <= MAX_PROCESSES ==> Contents() == old(Contents()) + made)
      ensures finished && old(pool.processList[p.slot].burstTime) != 0 ==>
                pool.processList[p.slot] == Finished(Sliced(old(pool.processList[p.slot]), coreId, now, quantum), end)
    {
      made := [];
      var k := p.slot;
      ghost var s := Sliced(pool.processList[k], coreId, now, quantum);
      RunSlice(pool, p, coreId, now, quantum);
      assert pool.processList[k] == s;
      finished := pool.processList[k].finishedPrint >= pool.processList[k].burstTime;
      if finished {
        pool.processList[k] := pool.processList[k].(isFinished := 1, endTime := end);
        assert pool.processList[..] == old(pool.processList[..])[k := Finished(s, end)];
        pool.Archive(pool.processList[k]);
        ghost var done := pool.State();
        assert done == WithRecord(old(pool.State()), k, Finished(s, end));
        var created, ok, m := CreateBatch(pool, batchFreq, minIns, maxIns, draws);
        defined, made := ok, m;
        if done.records[k].burstTime != 0 {
          RunKeepsBusy(done, 0, batchFreq, minIns, maxIns, draws, [], k);
        }
      } else {
        defined := true;
        Enqueue(p);
      }
    }

    /**
     * One pass of the `rr_core_worker` loop for core coreId: an empty queue
     * makes the worker leave (stop set) or wait, and changes nothing;
     * otherwise the entry at the front is dequeued and, when it points at
     * an unfinished process, dispatched.
     */
    method WorkerStep(pool: ProcessPool, coreId: int, now: int, end: int, quantum: int,
                      batchFreq: int, minIns: int, maxIns: int, draws: nat -> nat)
      returns (outcome: Outcome, p: Ptr, finished: bool, defined: bool, ghost made: seq<Ptr>)
      requires Valid() && pool.Valid() && rrQueue != pool.taskList
      requires InInt32(minIns) && InInt32(maxIns)
      requires forall j :: 0 <= j < MAX_PROCESSES ==> rrQueue[j].At? ==> rrQueue[j].slot < MAX_PROCESSES
      modifies this`rrFront, this`rrRear, rrQueue, pool`globalProcessCounter, pool.processList, pool.taskList
      modifies pool`finishedCount, pool.finishedList
      ensures Valid() && pool.Valid()
      ensures old(Count()) == 0 ==> outcome == (if stopRrScheduler then Exit else Wait) && p == Null && defined
      ensures old(Count()) == 0 ==>
                && rrRear == old(rrRear) && rrFront == old(rrFront)
                && pool.State() == old(pool.State()) && pool.finishedCount == old(pool.finishedCount)
      ensures old(Count()) > 0 ==> outcome == Handled && p == old(rrQueue[rrFront % MAX_PROCESSES]) && rrFront == old(rrFront) + 1
      ensures p.At? ==> p.slot < MAX_PROCESSES
      ensures old(Count()) > 0 && (p.Null? || old(pool.processList[p.slot].isFinished) != 0) ==>
                && !finished && rrRear == old(rrRear)
                && pool.State() == old(pool.State()) && pool.finishedCount == old(pool.finishedCount)
      ensures 0 < old(Count()) <= MAX_PROCESSES && (p.Null? || old(pool.processList[p.slot].isFinished) != 0) ==>
                Contents() == old(Contents())[1..]
      ensures 0 < old(Count()) <= MAX_PROCESSES && p.At? && old(pool.processList[p.slot].isFinished) == 0 && !finished ==>
                Count() == old(Count()) && Contents() == old(Contents())[1..] + [p]
      ensures var s := if p.At? then Sliced(old(pool.processList[p.slot]), coreId, now, quantum) else BLANK;
              old(Count()) > 0 && p.At? && old(pool.processList[p.slot].isFinished) == 0 ==>
                && finished == (s.finishedPrint >= s.burstTime)
                && (!finished ==> pool.State() == WithRecord(old(pool.State()), p.slot, s) && rrRear == old(rrRear) + 1)
      ensures var s := if p.At? then Sliced(old(pool.processList[p.slot]), coreId, now, quantum) else BLANK;
              var r := if p.At? then RunFrom(WithRecord(old(pool.State()), p.slot, Finished(s, end)), 0, batchFreq, minIns, maxIns, draws, [])
                       else BatchRun(old(pool.State()), [], true);
              old(Count()) > 0 && p.At? && old(pool.processList[p.slot].isFinished) == 0 && finished ==>
                && pool.State() == r.pool && made == r.made && defined == r.defined
                && rrRear == old(rrRear) + |made|
      ensures 0 < old(Count()) <= MAX_PROCESSES && p.At? && old(pool.processList[p.slot].isFinished) == 0 && finished &&
              old(Count()) - 1 + |made| <= MAX_PROCESSES ==>
                Count() == old(Count()) - 1 + |made| && Contents() == old(Contents())[1..] + made
    {
      defined, finished, made := true, false, [];
      if rrFront == rrRear {
        outcome := if stopRrScheduler then Exit else Wait;
        return outcome, Null, false, true, [];
      }
      outcome := Handled;
      p := Dequeue();
      if p.At? && pool.processList[p.slot].isFinished == 0 {
        finished, defined, made := Dispatch(pool, p, coreId, now, end, quantum, batchFreq, minIns, maxIns, draws);
      }
    }
  }

  /**
   * The slice loop of `rr_core_worker` on the struct p points at: it goes
   * on core coreId, its start time is set on its first dispatch only, and
   * `time_slice` prints are made one at a time; every other struct stays
   * as it was.
   */
  method RunSlice(pool: ProcessPool, p: Ptr, coreId: int, now: int, quantum: int)
    requires pool.Valid() && p.At? && p.slot < MAX_PROCESSES
    modifies pool.processList
    ensures pool.processList[..] == old(pool.processList[..])[p.slot := Sliced(old(pool.processList[p.slot]), coreId, now, quantum)]
  {
    var k := p.slot;
    var r := pool.processList[k];
    pool.processList[k] := r.(coreAssigned := coreId, startTime := if r.startTime == 0 then now else r.startTime);
    var slice := if r.burstTime - r.finishedPrint >= quantum then quantum else r.burstTime - r.finishedPrint;
    var i := 0;
    while i < slice
      invariant 0 <= i && (if slice > 0 then i <= slice else i == 0)
      invariant pool.processList[..] == old(pool.processList[..])[k := r.(
                  coreAssigned := coreId, startTime := if r.startTime == 0 then now else r.startTime,
                  finishedPrint := r.finishedPrint + i)]
    {
      pool.processList[k] := pool.processList[k].(finishedPrint := pool.processList[k].finishedPrint + 1);
      i := i + 1;
    }
  }
}
