/**
 * src/memory.c: the free-memory counters. `init_memory` fills the global
 * `m`; `update_free_memory` works on a copy passed by value and returns it.
 * The 64-bit fields are `uint64_t`, so the subtraction wraps modulo 2^64.
 */
module Memory {
  import opened CText

  /** The `Memory` struct of include/memory.h. */
  datatype Memory = Memory(
    totalMemory: U64,
    memPerFrame: U64,
    memPerProc: U64,
    freeMemory: U64,
    numProcessesInMemory: int)

  /** The value `init_memory` builds: all memory free and no process in memory. */
  function Initial(totalMemory: U64, memPerFrame: U64, memPerProc: U64): (r: Memory)
    ensures r.freeMemory == r.totalMemory == totalMemory && r.numProcessesInMemory == 0
    ensures r.memPerFrame == memPerFrame && r.memPerProc == memPerProc
  {
    Memory(totalMemory, memPerFrame, memPerProc, totalMemory, 0)
  }

  /** `uint64_t` subtraction: the difference modulo 2^64. */
  function Sub64(a: U64, b: U64): (r: U64)
    ensures a >= b ==> r == a - b
    ensures a < b ==> r == a - b + TWO_POW_64
  {
    (a - b) % TWO_POW_64
  }

  /**
   * `update_free_memory`: the copy with one process's worth of memory taken
   * from the free memory and the count of processes one higher. There is no
   * underflow check: taking more than is free wraps round below 2^64.
   */
  function UpdateFreeMemory(mem: Memory): (r: Memory)
    ensures r.totalMemory == mem.totalMemory && r.memPerFrame == mem.memPerFrame && r.memPerProc == mem.memPerProc
    ensures r.numProcessesInMemory == mem.numProcessesInMemory + 1
    ensures mem.freeMemory >= mem.memPerProc ==> r.freeMemory == mem.freeMemory - mem.memPerProc
    ensures mem.freeMemory < mem.memPerProc ==> r.freeMemory == TWO_POW_64 - (mem.memPerProc - mem.freeMemory)
  {
    mem.(freeMemory := Sub64(mem.freeMemory, mem.memPerProc),
         numProcessesInMemory := mem.numProcessesInMemory + 1)
  }

  /** The memory counters account for every byte: free plus what the processes hold is the total. */
  ghost predicate Accounted(mem: Memory) {
    mem.freeMemory + mem.numProcessesInMemory * mem.memPerProc == mem.totalMemory
  }

  /** `update_free_memory` keeps the account balanced as long as the subtraction does not wrap. */
  lemma UpdateKeepsAccount(mem: Memory)
    requires Accounted(mem) && mem.freeMemory >= mem.memPerProc
    ensures Accounted(UpdateFreeMemory(mem))
  {
    var r := UpdateFreeMemory(mem);
    assert r.numProcessesInMemory * mem.memPerProc == mem.numProcessesInMemory * mem.memPerProc + mem.memPerProc;
  }

  /** k calls of `update_free_memory`, each on the result of the one before. */
  function UpdateTimes(mem: Memory, k: nat): Memory
    decreases k
  {
    if k == 0 then mem else UpdateFreeMemory(UpdateTimes(mem, k - 1))
  }

  /**
   * From `init_memory`, k updates leave total - k * mem_per_proc free and k
   * processes counted, as long as k processes fit in the total.
   */
  lemma {:induction false} UpdatesFromInitial(totalMemory: U64, memPerFrame: U64, memPerProc: U64, k: nat)
    requires k * memPerProc <= totalMemory
    ensures var r := UpdateTimes(Initial(totalMemory, memPerFrame, memPerProc), k);
      && r.totalMemory == totalMemory && r.memPerFrame == memPerFrame && r.memPerProc == memPerProc
      && r.freeMemory == totalMemory - k * memPerProc && r.numProcessesInMemory == k
      && Accounted(r)
    decreases k
  {
    if k > 0 {
      UpdatesFromInitial(totalMemory, memPerFrame, memPerProc, k - 1);
      var prev := UpdateTimes(Initial(totalMemory, memPerFrame, memPerProc), k - 1);
      var used := (k - 1) * memPerProc;
      assert k * memPerProc == used + memPerProc;
      assert prev.freeMemory == totalMemory - used >= memPerProc;
      assert UpdateTimes(Initial(totalMemory, memPerFrame, memPerProc), k) == UpdateFreeMemory(prev);
    }
  }

  /** The global `m` of src/memory.c. */
  class MemoryState {
    var m: Memory

    constructor ()
      ensures m == Memory(0, 0, 0, 0, 0)
    {
      m := Memory(0, 0, 0, 0, 0);
    }

    /** `init_memory`: stores the initial counters in the global `m` and returns them. */
    method InitMemory(totalMemory: U64, memPerFrame: U64, memPerProc: U64) returns (r: Memory)
      modifies this
      ensures r == m == Initial(totalMemory, memPerFrame, memPerProc)
      ensures Accounted(r)
    {
      m := m.(totalMemory := totalMemory);
      m := m.(memPerFrame := memPerFrame);
      m := m.(memPerProc := memPerProc);
      m := m.(numProcessesInMemory := 0);
      m := m.(freeMemory := totalMemory);
      r := m;
    }
  }
}
