/**
 * The root build's process table (scheduler.h, scheduler_utils.c): the ten
 * `Process` structs of `process_list`, `task_list`, the archive
 * `finished_list`, and the helpers that reset a slot, find a free one and
 * draw a burst length. `rand()` is a parameter.
 */
module RootProcess {
  import opened CText
  import opened Wrappers

  const MAX_PROCESSES: nat := 10
  const MAX_FINISHED_PROCESSES: nat := 100

  /** A value a C `int` can hold. */
  predicate InInt32(x: int) {
    -TWO_POW_31 <= x < TWO_POW_31
  }

  /** A copy of a `Process` struct, as `finished_list` stores it. */
  datatype ProcRecord = ProcRecord(
    name: string,
    totalPrints: int,
    finishedPrint: int,
    startTime: int,
    endTime: int,
    coreAssigned: int,
    burstTime: int,
    isFinished: int,
    filename: string)

  /** The zero-initialised struct of a global array. */
  const BLANK: ProcRecord := ProcRecord("", 0, 0, 0, 0, 0, 0, 0, "")

  /**
   * A `Process *` of the root build: NULL, or the address of slot `slot`
   * of `process_list` (every pointer the queues and `task_list` hold is
   * `&process_list[idx]`).
   */
  datatype Ptr = Null | At(slot: nat)

  /**
   * The struct of a slot after a creation step: `create_process` with the
   * burst, then the name "p" followed by the process counter.
   */
  function Created(r: ProcRecord, burst: int, counter: nat): (c: ProcRecord)
    ensures c.burstTime == c.totalPrints == burst && c.finishedPrint == 0 && c.isFinished == 0
    ensures c.coreAssigned == -1 && c.startTime == 0 && c.endTime == 0 && c.filename == r.filename
    ensures c.name == "p" + Decimal(counter)
  {
    r.(name := "p" + Decimal(counter), burstTime := burst, totalPrints := burst, finishedPrint := 0,
       isFinished := 0, coreAssigned := -1, startTime := 0, endTime := 0)
  }

  /** `find_free_process_slot` on the structs: the lowest slot whose burst time is 0 (FreeSlotLowest). */
  function FreeSlot(rs: seq<ProcRecord>): (r: Option<nat>)
    ensures r.Some? ==> r.value < |rs|
  {
    FreeSlotFrom(rs, 0)
  }

  /** The lowest slot from k on whose burst time is 0. */
  function FreeSlotFrom(rs: seq<ProcRecord>, k: nat): (r: Option<nat>)
    requires k <= |rs|
    ensures r.Some? ==> k <= r.value < |rs|
    decreases |rs| - k
  {
    if k == |rs| then None
    else if rs[k].burstTime == 0 then Some(k)
    else FreeSlotFrom(rs, k + 1)
  }

  /** FreeSlotFrom finds a free slot from k on, and every slot it passes over is busy. */
  lemma {:induction false} FreeSlotFromLowest(rs: seq<ProcRecord>, k: nat)
    requires k <= |rs|
    ensures var r := FreeSlotFrom(rs, k);
            && (r.Some? ==> rs[r.value].burstTime == 0 && forall j :: k <= j < r.value ==> rs[j].burstTime != 0)
            && (r.None? ==> forall j :: k <= j < |rs| ==> rs[j].burstTime != 0)
    decreases |rs| - k
  {
    if k < |rs| && rs[k].burstTime != 0 {
      FreeSlotFromLowest(rs, k + 1);
    }
  }

  /** FreeSlot is a slot with burst time 0 below which every slot is busy; None means every slot is busy. */
  lemma FreeSlotLowest(rs: seq<ProcRecord>)
    ensures var r := FreeSlot(rs);
            && (r.Some? ==> rs[r.value].burstTime == 0 && forall k :: 0 <= k < r.value ==> rs[k].burstTime != 0)
            && (r.None? ==> forall k :: 0 <= k < |rs| ==> rs[k].burstTime != 0)
  {
    FreeSlotFromLowest(rs, 0);
  }

  /** The slots a batch of creations reset, in order, the structs it leaves, and whether every draw was defined. */
  datatype Batch = Batch(records: seq<ProcRecord>, slots: seq<nat>, defined: bool)

  /**
   * Rounds i, i + 1, ... below n of a creation batch on the structs rs with
   * the process counter at `counter`: each round takes the lowest free slot
   * and resets it with the burst of the round's draw and the next counter
   * value; the batch ends at round n, at the first round without a free
   * slot, or at an undefined draw.
   */
  function BatchFrom(rs: seq<ProcRecord>, counter: nat, i: nat, n: int, minIns: int, maxIns: int, draws: nat -> nat): (b: Batch)
    requires InInt32(minIns) && InInt32(maxIns)
    ensures |b.records| == |rs| && forall j :: 0 <= j < |b.slots| ==> b.slots[j] < |rs|
    ensures |b.slots| <= (if n - i < 0 then 0 else n - i)
    decreases n - i
  {
    if i >= n then Batch(rs, [], true)
    else match FreeSlot(rs)
      case None => Batch(rs, [], true)
      case Some(idx) =>
        match RandomBurst(minIns, maxIns, draws(i))
        case None => Batch(rs, [], false)
        case Some(burst) =>
          var rest := BatchFrom(rs[idx := Created(rs[idx], burst, counter + 1)], counter + 1, i + 1, n, minIns, maxIns, draws);
          rest.(slots := [idx] + rest.slots)
  }

  /**
   * One round of a batch: with a free slot idx and a defined draw, the
   * batch is the round on idx followed by the batch from the next round.
   */
  lemma BatchStep(rs: seq<ProcRecord>, counter: nat, i: nat, n: int, minIns: int, maxIns: int, draws: nat -> nat,
                  idx: nat, burst: int)
    requires InInt32(minIns) && InInt32(maxIns) && i < n
    requires FreeSlot(rs) == Some(idx) && RandomBurst(minIns, maxIns, draws(i)) == Some(burst)
    ensures var rest := BatchFrom(rs[idx := Created(rs[idx], burst, counter + 1)], counter + 1, i + 1, n, minIns, maxIns, draws);
            BatchFrom(rs, counter, i, n, minIns, maxIns, draws) == rest.(slots := [idx] + rest.slots)
  {
  }

  /** The pointers to the slots `slots` of `process_list`, in order. */
  function Pointers(slots: seq<nat>): (r: seq<Ptr>)
    ensures |r| == |slots| && forall j :: 0 <= j < |slots| ==> r[j] == At(slots[j])
  {
    seq(|slots|, j requires 0 <= j < |slots| => At(slots[j]))
  }

  /**
   * `task_list` after the slots `slots` were reset: each of those points at
   * its own slot, every other entry is as before.
   */
  function Linked(tasks: seq<Ptr>, slots: seq<nat>): (r: seq<Ptr>)
    ensures |r| == |tasks| && forall k :: 0 <= k < |tasks| ==> r[k] == if k in slots then At(k) else tasks[k]
  {
    seq(|tasks|, k requires 0 <= k < |tasks| => if k in slots then At(k) else tasks[k])
  }

  /**
   * A batch resets only slots that were free before it, and leaves every
   * other struct as it was.
   */
  lemma {:induction false} BatchTouchesOnlyFree(rs: seq<ProcRecord>, counter: nat, i: nat, n: int,
                                                minIns: int, maxIns: int, draws: nat -> nat)
    requires InInt32(minIns) && InInt32(maxIns)
    ensures var b := BatchFrom(rs, counter, i, n, minIns, maxIns, draws);
      && (forall j :: 0 <= j < |b.slots| ==> rs[b.slots[j]].burstTime == 0)
      && (forall k :: 0 <= k < |rs| && k !in b.slots ==> b.records[k] == rs[k])
    decreases n - i
  {
    if i < n && FreeSlot(rs).Some? && RandomBurst(minIns, maxIns, draws(i)).Some? {
      FreeSlotLowest(rs);
      var idx := FreeSlot(rs).value;
      var burst := RandomBurst(minIns, maxIns, draws(i)).value;
      var rs' := rs[idx := Created(rs[idx], burst, counter + 1)];
      BatchTouchesOnlyFree(rs', counter + 1, i + 1, n, minIns, maxIns, draws);
      var rest := BatchFrom(rs', counter + 1, i + 1, n, minIns, maxIns, draws);
      assert BatchFrom(rs, counter, i, n, minIns, maxIns, draws).slots == [idx] + rest.slots;
      forall j | 0 <= j < |rest.slots|
        ensures rs[rest.slots[j]].burstTime == 0
      {
        if rest.slots[j] != idx {
          assert rs'[rest.slots[j]] == rs[rest.slots[j]];
        }
      }
    }
  }

  /**
   * Round j of a batch that starts at round i with the counter at `counter`
   * left its process in its slot: the struct that was there, reset with the
   * burst of draw i + j and the name "p" with counter + j + 1.
   */
  ghost predicate RoundHeld(b: Batch, rs: seq<ProcRecord>, counter: nat, i: nat, j: nat,
                            minIns: int, maxIns: int, draws: nat -> nat)
    requires InInt32(minIns) && InInt32(maxIns) && minIns <= maxIns && InInt32(maxIns - minIns + 1)
    requires j < |b.slots| && b.slots[j] < |b.records| && b.slots[j] < |rs|
  {
    b.records[b.slots[j]] == Created(rs[b.slots[j]], RandomBurst(minIns, maxIns, draws(i + j)).value, counter + j + 1)
  }

  /**
   * Every draw of the batch from round i was defined, round j took a slot
   * above the one of round j - 1, and the slot of round j holds the process
   * of that round.
   */
  ghost predicate BatchOrdered(rs: seq<ProcRecord>, counter: nat, i: nat, n: int,
                               minIns: int, maxIns: int, draws: nat -> nat)
    requires InInt32(minIns) && InInt32(maxIns) && minIns <= maxIns && InInt32(maxIns - minIns + 1)
  {
    var b := BatchFrom(rs, counter, i, n, minIns, maxIns, draws);
    && b.defined
    && (forall j, l :: 0 <= j < l < |b.slots| ==> b.slots[j] < b.slots[l])
    && (forall j :: 0 <= j < |b.slots| ==> RoundHeld(b, rs, counter, i, j, minIns, maxIns, draws))
  }

  /**
   * With bursts drawn from [min, max] for 1 <= min (no draw is 0), every
   * draw is defined, round j takes a slot above the one of round j - 1, and
   * the slot of round j ends up holding the process of that round: the burst
   * of draw i + j and the name "p" with counter + j + 1.
   */
  lemma {:induction false} BatchInOrder(rs: seq<ProcRecord>, counter: nat, i: nat, n: int,
                                        minIns: int, maxIns: int, draws: nat -> nat)
    requires InInt32(minIns) && InInt32(maxIns) && 1 <= minIns <= maxIns && InInt32(maxIns - minIns + 1)
    ensures BatchOrdered(rs, counter, i, n, minIns, maxIns, draws)
    decreases n - i
  {
    if i < n && FreeSlot(rs).Some? {
      var idx := FreeSlot(rs).value;
      RandomBurstInRange(minIns, maxIns, draws(i));
      var burst := RandomBurst(minIns, maxIns, draws(i)).value;
      var rs' := rs[idx := Created(rs[idx], burst, counter + 1)];
      BatchInOrder(rs', counter + 1, i + 1, n, minIns, maxIns, draws);
      BatchTouchesOnlyFree(rs', counter + 1, i + 1, n, minIns, maxIns, draws);
      BatchOrderedStep(rs, counter, i, n, minIns, maxIns, draws, idx, burst);
    }
  }

  /** A round that resets the lowest free slot carries the order of the rounds after it back to itself. */
  lemma BatchOrderedStep(rs: seq<ProcRecord>, counter: nat, i: nat, n: int,
                         minIns: int, maxIns: int, draws: nat -> nat, idx: nat, burst: int)
    requires InInt32(minIns) && InInt32(maxIns) && 1 <= minIns <= maxIns && InInt32(maxIns - minIns + 1) && i < n
    requires FreeSlot(rs) == Some(idx) && RandomBurst(minIns, maxIns, draws(i)) == Some(burst)
    requires var rs' := rs[idx := Created(rs[idx], burst, counter + 1)];
             var rest := BatchFrom(rs', counter + 1, i + 1, n, minIns, maxIns, draws);
      && BatchOrdered(rs', counter + 1, i + 1, n, minIns, maxIns, draws)
      && (forall j :: 0 <= j < |rest.slots| ==> rs'[rest.slots[j]].burstTime == 0)
      && (forall k :: 0 <= k < |rs'| && k !in rest.slots ==> rest.records[k] == rs'[k])
    ensures BatchOrdered(rs, counter, i, n, minIns, maxIns, draws)
  {
    var rs' := rs[idx := Created(rs[idx], burst, counter + 1)];
    var rest := BatchFrom(rs', counter + 1, i + 1, n, minIns, maxIns, draws);
    var b := BatchFrom(rs, counter, i, n, minIns, maxIns, draws);
    BatchStep(rs, counter, i, n, minIns, maxIns, draws, idx, burst);
    FreeSlotLowest(rs);
    assert b.slots == [idx] + rest.slots && b.records == rest.records && b.defined == rest.defined;
    forall j | 0 <= j < |rest.slots|
      ensures idx < rest.slots[j]
    {
      assert rs'[rest.slots[j]].burstTime == 0;
    }
    assert idx !in rest.slots;
    forall j | 0 <= j < |b.slots|
      ensures RoundHeld(b, rs, counter, i, j, minIns, maxIns, draws)
    {
      if j == 0 {
        assert b.records[idx] == rs'[idx];
      } else {
        var s := rest.slots[j - 1];
        assert RoundHeld(rest, rs', counter + 1, i + 1, j - 1, minIns, maxIns, draws);
        assert b.slots[j] == s && s != idx && rs'[s] == rs[s];
        assert i + 1 + (j - 1) == i + j && counter + 1 + (j - 1) + 1 == counter + j + 1;
      }
    }
  }

  /**
   * The pool as the batch loop sees it: the structs of `process_list`, the
   * pointers of `task_list` and the process counter.
   */
  datatype PoolState = PoolState(records: seq<ProcRecord>, tasks: seq<Ptr>, counter: nat)

  /** A finished batch loop: the pool it leaves, the pointers it created in order, whether every draw was defined. */
  datatype BatchRun = BatchRun(pool: PoolState, made: seq<Ptr>, defined: bool)

  /**
   * The pool after one creation on slot idx with the burst: the counter
   * goes up by one, the struct of the slot is reset and named with the new
   * counter, and `task_list[idx]` points at it.
   */
  function Reset(s: PoolState, idx: nat, burst: int): (t: PoolState)
    requires |s.records| == |s.tasks| && idx < |s.records|
    ensures |t.records| == |t.tasks| == |s.records|
  {
    PoolState(s.records[idx := Created(s.records[idx], burst, s.counter + 1)], s.tasks[idx := At(idx)], s.counter + 1)
  }

  /** The pool with the struct of slot k replaced by r. */
  function WithRecord(s: PoolState, k: nat, r: ProcRecord): (t: PoolState)
    requires k < |s.records|
    ensures |t.records| == |s.records| && t.tasks == s.tasks && t.counter == s.counter
  {
    s.(records := s.records[k := r])
  }

  /**
   * Rounds i, i + 1, ... below n of the batch loop on the pool s, where
   * made are the pointers created before round i: once i reaches n the
   * loop is over; otherwise round i runs (RunRound).
   */
  function RunFrom(s: PoolState, i: nat, n: int, minIns: int, maxIns: int, draws: nat -> nat, made: seq<Ptr>): (r: BatchRun)
    requires |s.records| == |s.tasks| && InInt32(minIns) && InInt32(maxIns)
    ensures |r.pool.records| == |s.records| && |r.pool.tasks| == |s.tasks| && |made| <= |r.made|
    decreases n - i, 1
  {
    if i >= n then BatchRun(s, made, true) else RunRound(s, i, n, minIns, maxIns, draws, made)
  }

  /**
   * Round i < n of the batch loop and the rounds after it: the round
   * resets the lowest free slot idx with the round's draw and the next
   * counter value, points `task_list[idx]` at it and hands
   * &process_list[idx] on; no free slot ends the loop, and so does an
   * undefined draw, with an undefined outcome.
   */
  function RunRound(s: PoolState, i: nat, n: int, minIns: int, maxIns: int, draws: nat -> nat, made: seq<Ptr>): (r: BatchRun)
    requires |s.records| == |s.tasks| && InInt32(minIns) && InInt32(maxIns) && i < n
    ensures |r.pool.records| == |s.records| && |r.pool.tasks| == |s.tasks| && |made| <= |r.made|
    decreases n - i, 0
  {
    match FreeSlot(s.records)
    case None => BatchRun(s, made, true)
    case Some(idx) =>
      match RandomBurst(minIns, maxIns, draws(i))
      case None => BatchRun(s, made, false)
      case Some(burst) => RunFrom(Reset(s, idx, burst), i + 1, n, minIns, maxIns, draws, made + [At(idx)])
  }

  /**
   * The batch loop from round i creates at most one process per round
   * left, steps the counter once per process, and ends early with a
   * defined outcome only when every slot is busy.
   */
  lemma {:induction false} RunFromCounts(s: PoolState, i: nat, n: int, minIns: int, maxIns: int, draws: nat -> nat, made: seq<Ptr>)
    requires |s.records| == |s.tasks| && InInt32(minIns) && InInt32(maxIns)
    ensures var r := RunFrom(s, i, n, minIns, maxIns, draws, made);
            && r.pool.counter == s.counter + |r.made| - |made|
            && |r.made| - |made| <= (if n > i then n - i else 0)
            && (r.defined && |r.made| - |made| < n - i ==> forall k :: 0 <= k < |r.pool.records| ==> r.pool.records[k].burstTime != 0)
    decreases n - i
  {
    if i < n {
      FreeSlotLowest(s.records);
      match FreeSlot(s.records)
      case None =>
      case Some(idx) =>
        match RandomBurst(minIns, maxIns, draws(i))
        case None =>
        case Some(burst) => RunFromCounts(Reset(s, idx, burst), i + 1, n, minIns, maxIns, draws, made + [At(idx)]);
    }
  }

  /**
   * The batch loop from round i on the whole pool s does what the batch on
   * its structs says: the same structs and outcome, one counter step and
   * one pointer per reset slot, in the order of the slots, and `task_list`
   * pointing at exactly the reset slots besides what it held.
   */
  ghost predicate RunMatchesBatch(s: PoolState, i: nat, n: int, minIns: int, maxIns: int, draws: nat -> nat, made: seq<Ptr>)
    requires |s.records| == |s.tasks| && InInt32(minIns) && InInt32(maxIns)
  {
    var r := RunFrom(s, i, n, minIns, maxIns, draws, made);
    var b := BatchFrom(s.records, s.counter, i, n, minIns, maxIns, draws);
    && r.pool.records == b.records && r.defined == b.defined
    && r.pool.counter == s.counter + |b.slots|
    && r.made == made + Pointers(b.slots)
    && r.pool.tasks == Linked(s.tasks, b.slots)
  }

  /** The batch loop on the whole pool agrees with the batch on the structs, from every round on. */
  lemma {:induction false} RunFromAgrees(s: PoolState, i: nat, n: int, minIns: int, maxIns: int, draws: nat -> nat,
                                         made: seq<Ptr>)
    requires |s.records| == |s.tasks| && InInt32(minIns) && InInt32(maxIns)
    ensures RunMatchesBatch(s, i, n, minIns, maxIns, draws, made)
    decreases n - i
  {
    if i < n && FreeSlot(s.records).Some? && RandomBurst(minIns, maxIns, draws(i)).Some? {
      var idx := FreeSlot(s.records).value;
      var burst := RandomBurst(minIns, maxIns, draws(i)).value;
      RunFromAgrees(Reset(s, idx, burst), i + 1, n, minIns, maxIns, draws, made + [At(idx)]);
      RunMatchesStep(s, i, n, minIns, maxIns, draws, made, idx, burst);
    } else {
      RunMatchesStop(s, i, n, minIns, maxIns, draws, made);
    }
  }

  /** A round that stops the batch: no round left, no free slot or an undefined draw. */
  lemma RunMatchesStop(s: PoolState, i: nat, n: int, minIns: int, maxIns: int, draws: nat -> nat, made: seq<Ptr>)
    requires |s.records| == |s.tasks| && InInt32(minIns) && InInt32(maxIns)
    requires !(i < n && FreeSlot(s.records).Some? && RandomBurst(minIns, maxIns, draws(i)).Some?)
    ensures RunMatchesBatch(s, i, n, minIns, maxIns, draws, made)
  {
    assert Linked(s.tasks, []) == s.tasks;
  }

  /** A round that resets slot idx carries the agreement of the rounds after it back to itself. */
  lemma RunMatchesStep(s: PoolState, i: nat, n: int, minIns: int, maxIns: int, draws: nat -> nat,
                       made: seq<Ptr>, idx: nat, burst: int)
    requires |s.records| == |s.tasks| && InInt32(minIns) && InInt32(maxIns) && i < n
    requires FreeSlot(s.records) == Some(idx) && RandomBurst(minIns, maxIns, draws(i)) == Some(burst)
    requires RunMatchesBatch(Reset(s, idx, burst), i + 1, n, minIns, maxIns, draws, made + [At(idx)])
    ensures RunMatchesBatch(s, i, n, minIns, maxIns, draws, made)
  {
    var next := Reset(s, idx, burst);
    var rest := BatchFrom(next.records, next.counter, i + 1, n, minIns, maxIns, draws);
    RunStep(s, i, n, minIns, maxIns, draws, made, idx, burst);
    BatchStep(s.records, s.counter, i, n, minIns, maxIns, draws, idx, burst);
    var r := RunFrom(next, i + 1, n, minIns, maxIns, draws, made + [At(idx)]);
    var b := BatchFrom(s.records, s.counter, i, n, minIns, maxIns, draws);
    assert b.slots == [idx] + rest.slots && b.records == rest.records && b.defined == rest.defined;
    PointersCons(idx, rest.slots);
    AppendAssoc(made, [At(idx)], Pointers(rest.slots));
    LinkedCons(s.tasks, idx, rest.slots);
    assert r.pool.tasks == Linked(s.tasks, b.slots);
  }

  /** One round of the batch loop on the pool, with a free slot idx and a defined draw. */
  lemma RunStep(s: PoolState, i: nat, n: int, minIns: int, maxIns: int, draws: nat -> nat,
                made: seq<Ptr>, idx: nat, burst: int)
    requires |s.records| == |s.tasks| && InInt32(minIns) && InInt32(maxIns) && i < n
    requires FreeSlot(s.records) == Some(idx) && RandomBurst(minIns, maxIns, draws(i)) == Some(burst)
    ensures RunFrom(s, i, n, minIns, maxIns, draws, made) == RunFrom(Reset(s, idx, burst), i + 1, n, minIns, maxIns, draws, made + [At(idx)])
  {
  }

  /** The batch loop leaves a struct that is in use (burst time not 0) as it was. */
  lemma RunKeepsBusy(s: PoolState, i: nat, n: int, minIns: int, maxIns: int, draws: nat -> nat, made: seq<Ptr>, k: nat)
    requires |s.records| == |s.tasks| && InInt32(minIns) && InInt32(maxIns)
    requires k < |s.records| && s.records[k].burstTime != 0
    ensures RunFrom(s, i, n, minIns, maxIns, draws, made).pool.records[k] == s.records[k]
  {
    RunFromAgrees(s, i, n, minIns, maxIns, draws, made);
    BatchTouchesOnlyFree(s.records, s.counter, i, n, minIns, maxIns, draws);
  }

  /** The batch loop ends with the pool as it is after round n, when `find_free_process_slot` fails, or with an undefined draw. */
  lemma RunStop(s: PoolState, i: nat, n: int, minIns: int, maxIns: int, draws: nat -> nat, made: seq<Ptr>)
    requires |s.records| == |s.tasks| && InInt32(minIns) && InInt32(maxIns)
    ensures i >= n ==> RunFrom(s, i, n, minIns, maxIns, draws, made) == BatchRun(s, made, true)
    ensures i < n && FreeSlot(s.records).None? ==> RunFrom(s, i, n, minIns, maxIns, draws, made) == BatchRun(s, made, true)
    ensures i < n && FreeSlot(s.records).Some? && RandomBurst(minIns, maxIns, draws(i)).None? ==>
              RunFrom(s, i, n, minIns, maxIns, draws, made) == BatchRun(s, made, false)
  {
  }

  lemma AppendAssoc<T>(a: seq<T>, b: seq<T>, c: seq<T>)
    ensures (a + b) + c == a + (b + c)
  {
  }

  lemma PointersCons(idx: nat, slots: seq<nat>)
    ensures Pointers([idx] + slots) == [At(idx)] + Pointers(slots)
  {
    var all := [idx] + slots;
    var a := Pointers(all);
    var c := [At(idx)] + Pointers(slots);
    forall j | 0 <= j < |a|
      ensures a[j] == c[j]
    {
      if j > 0 {
        assert all[j] == slots[j - 1];
      }
    }
  }

  lemma LinkedCons(tasks: seq<Ptr>, idx: nat, slots: seq<nat>)
    requires idx < |tasks|
    ensures Linked(tasks, [idx] + slots) == Linked(tasks[idx := At(idx)], slots)
  {
    assert forall k :: k in [idx] + slots <==> k == idx || k in slots;
  }

  /**
   * `get_random_burst(min, max)` given the value r of `rand()`:
   * min + r % (max - min + 1). For r >= 0 C's truncating remainder is
   * Dafny's `%`. None where C leaves the result undefined: a divisor of 0
   * (max = min - 1) or an `int` overflow.
   */
  function RandomBurst(min: int, max: int, r: nat): Option<int>
    requires InInt32(min) && InInt32(max)
  {
    var span := max - min + 1;
    if !InInt32(max - min) || !InInt32(span) || span == 0 then None
    else if !InInt32(min + r % span) then None
    else Some(min + r % span)
  }

  /** With min <= max every draw lands in [min, max]. */
  lemma RandomBurstInRange(min: int, max: int, r: nat)
    requires InInt32(min) && InInt32(max) && min <= max && InInt32(max - min + 1)
    ensures RandomBurst(min, max, r).Some?
    ensures min <= RandomBurst(min, max, r).value <= max
  {
  }

  /** With min <= max every value of [min, max] is drawn by some r. */
  lemma RandomBurstCovers(min: int, max: int, v: int)
    requires InInt32(min) && InInt32(max) && min <= v <= max && InInt32(max - min + 1)
    ensures RandomBurst(min, max, v - min) == Some(v)
  {
    ModBelow(v - min, max - min + 1);
  }

  /** A remainder by a larger divisor leaves the value as it is. */
  lemma ModBelow(a: int, m: int)
    requires 0 <= a < m
    ensures a % m == a
  {
  }

  /** With max < min - 1 the divisor is negative and the draw can land above max: min itself when r = 0. */
  lemma RandomBurstReversed(min: int, max: int)
    requires InInt32(min) && InInt32(max) && max < min - 1 && InInt32(max - min)
    ensures RandomBurst(min, max, 0) == Some(min) && min > max
  {
  }

  /** `x % MAX_PROCESSES` for an x below twice the bound. */
  function Slot(x: nat): (k: nat)
    requires x < 2 * MAX_PROCESSES
    ensures k < MAX_PROCESSES && k == x % MAX_PROCESSES
  {
    if x < MAX_PROCESSES then x else x - MAX_PROCESSES
  }

  /** The n queued pointers of a ten-slot ring read from slot f on, oldest first. */
  function Ring(a: seq<Ptr>, f: nat, n: nat): (r: seq<Ptr>)
    requires |a| == MAX_PROCESSES && f < MAX_PROCESSES && n <= MAX_PROCESSES
    ensures |r| == n
  {
    seq(n, i requires 0 <= i < n => a[Slot(f + i)])
  }

  /** Storing into the slot after the n queued ones adds a newest entry and keeps the others. */
  lemma RingAppend(a: seq<Ptr>, f: nat, n: nat, p: Ptr)
    requires |a| == MAX_PROCESSES && f < MAX_PROCESSES && n < MAX_PROCESSES
    ensures Ring(a[Slot(f + n) := p], f, n + 1) == Ring(a, f, n) + [p]
  {
    var b := a[Slot(f + n) := p];
    forall i | 0 <= i < n
      ensures Ring(b, f, n + 1)[i] == Ring(a, f, n)[i]
    {
      assert Slot(f + i) != Slot(f + n);
    }
  }

  /** Moving the front one slot on drops the oldest entry. */
  lemma RingAdvance(a: seq<Ptr>, f: nat, n: nat)
    requires |a| == MAX_PROCESSES && f < MAX_PROCESSES && 0 < n <= MAX_PROCESSES
    ensures Ring(a, Slot(f + 1), n - 1) == Ring(a, f, n)[1..]
  {
    var w := Ring(a, f, n);
    var v := Ring(a, Slot(f + 1), n - 1);
    forall i | 0 <= i < n - 1
      ensures v[i] == w[i + 1]
    {
      assert Slot(Slot(f + 1) + i) == Slot(f + (i + 1));
    }
  }

  /** The process globals of the root build. */
  class ProcessPool {
    /** `process_list`: the structs themselves, one per slot. */
    var processList: array<ProcRecord>
    /** `task_list[i].process`. */
    var taskList: array<Ptr>
    var finishedList: array<ProcRecord>
    var finishedCount: int
    var globalProcessCounter: nat

    ghost predicate Valid()
      reads this
    {
      && processList.Length == MAX_PROCESSES && taskList.Length == MAX_PROCESSES
      && finishedList.Length == MAX_FINISHED_PROCESSES && processList != finishedList
      && 0 <= finishedCount <= MAX_FINISHED_PROCESSES
    }

    /** The pool as the batch loops see it. */
    ghost function State(): (s: PoolState)
      requires Valid()
      reads this, processList, taskList
      ensures |s.records| == |s.tasks| == MAX_PROCESSES && s.counter == globalProcessCounter
    {
      PoolState(processList[..], taskList[..], globalProcessCounter)
    }

    /** The zero-initialised globals. */
    constructor ()
      ensures Valid() && fresh(processList) && fresh(taskList) && fresh(finishedList)
      ensures forall i :: 0 <= i < MAX_PROCESSES ==> processList[i] == BLANK && taskList[i] == Null
      ensures finishedCount == 0 && globalProcessCounter == 0
    {
      processList := new ProcRecord[MAX_PROCESSES](_ => BLANK);
      taskList := new Ptr[MAX_PROCESSES](_ => Null);
      finishedList := new ProcRecord[MAX_FINISHED_PROCESSES](_ => BLANK);
      finishedCount := 0;
      globalProcessCounter := 0;
    }

    /**
     * `find_free_process_slot`: the smallest slot whose burst time is 0, or
     * -1 when every slot has a nonzero burst time; nothing changes.
     */
    method FindFreeProcessSlot() returns (idx: int)
      requires Valid()
      ensures -1 <= idx < MAX_PROCESSES
      ensures idx == -1 <==> forall k :: 0 <= k < MAX_PROCESSES ==> processList[k].burstTime != 0
      ensures idx >= 0 ==> idx < MAX_PROCESSES && processList[idx].burstTime == 0
      ensures idx >= 0 ==> forall k :: 0 <= k < idx ==> processList[k].burstTime != 0
      ensures FreeSlot(processList[..]) == if idx < 0 then None else Some(idx)
    {
      FreeSlotLowest(processList[..]);
      var i := 0;
      while i < MAX_PROCESSES
        invariant 0 <= i <= MAX_PROCESSES
        invariant forall k :: 0 <= k < i ==> processList[k].burstTime != 0
      {
        if processList[i].burstTime == 0 {
          return i;
        }
        i := i + 1;
      }
      return -1;
    }

    /**
     * `create_process` on the struct proc points at: the burst becomes both
     * the burst time and the print total, progress and times are cleared and
     * the process is on no core; the name and file name stay as they were,
     * every other struct too, and idx is not used.
     */
    method CreateProcess(proc: Ptr, idx: int, burst: int)
      requires Valid() && proc.At? && proc.slot < MAX_PROCESSES
      modifies processList
      ensures processList[..] == old(processList[..])[proc.slot := old(processList[proc.slot]).(
                burstTime := burst, totalPrints := burst, finishedPrint := 0,
                isFinished := 0, coreAssigned := -1, startTime := 0, endTime := 0)]
    {
      processList[proc.slot] := processList[proc.slot].(burstTime := burst, totalPrints := burst, finishedPrint := 0,
                                                      isFinished := 0, coreAssigned := -1, startTime := 0, endTime := 0);
    }

    /**
     * The creation step the batch loops share: the counter goes up by one,
     * slot idx is reset by `create_process` with the burst, named "p" and the
     * counter, and `task_list[idx]` points at it; the pointer is the result.
     */
    method Spawn(idx: nat, burst: int) returns (p: Ptr)
      requires Valid() && idx < MAX_PROCESSES
      modifies this`globalProcessCounter, processList, taskList
      ensures Valid() && p == At(idx)
      ensures State() == Reset(old(State()), idx, burst)
    {
      globalProcessCounter := globalProcessCounter + 1;
      p := At(idx);
      CreateProcess(p, idx, burst);
      processList[idx] := processList[idx].(name := "p" + Decimal(globalProcessCounter));
      taskList[idx] := p;
    }

    /** `finished_list[finished_count++] = *p` while the archive has room; otherwise nothing. */
    method Archive(r: ProcRecord)
      requires Valid()
      modifies this`finishedCount, finishedList
      ensures Valid()
      ensures old(finishedCount) < MAX_FINISHED_PROCESSES ==>
                finishedCount == old(finishedCount) + 1 && finishedList[..] == old(finishedList[..])[old(finishedCount) := r]
      ensures old(finishedCount) >= MAX_FINISHED_PROCESSES ==>
                finishedCount == old(finishedCount) && finishedList[..] == old(finishedList[..])
    {
      if finishedCount < MAX_FINISHED_PROCESSES {
        finishedList[finishedCount] := r;
        finishedCount := finishedCount + 1;
      }
    }

    /**
     * The run of an unfinished process that the FCFS worker makes through
     * the pointer p: it goes on the core, its prints all happen
     * (`burst_time` of them, none for a burst below 1), it is marked
     * finished, and the times are the clock readings `start` and `end`;
     * every other struct stays as it was.
     */
    method RunToCompletion(p: Ptr, coreId: int, start: int, end: int)
      requires Valid() && p.At? && p.slot < MAX_PROCESSES
      modifies processList
      ensures var r := old(processList[p.slot]);
              processList[..] == old(processList[..])[p.slot := r.(
                coreAssigned := coreId, startTime := start, endTime := end, isFinished := 1,
                finishedPrint := r.finishedPrint + (if r.burstTime > 0 then r.burstTime else 0))]
    {
      var k := p.slot;
      processList[k] := processList[k].(coreAssigned := coreId, startTime := start);
      var i := 0;
      while i < processList[k].burstTime
        invariant 0 <= i && (if processList[k].burstTime > 0 then i <= processList[k].burstTime else i == 0)
        invariant processList[..] == old(processList[..])[k := old(processList[k]).(
                    coreAssigned := coreId, startTime := start, finishedPrint := old(processList[k].finishedPrint) + i)]
      {
        processList[k] := processList[k].(finishedPrint := processList[k].finishedPrint + 1);
        i := i + 1;
      }
      processList[k] := processList[k].(endTime := end, isFinished := 1);
    }
  }
}
