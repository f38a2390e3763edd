/**
 * src/scheduler.c: the growable circular ready queue, one tick of the
 * scheduler thread's loop (the wake-up of sleeping processes) and the
 * creation of the core array. Queue entries are `Process` pointers of the
 * `src/` build; the queue never looks inside them.
 */
module Scheduler {
  import opened ProcessVm
  import opened ProcessObject
  import opened CText

  /** `init_ready_queue` starts with room for 16 entries. */
  const INITIAL_CAPACITY: nat := 16

  /** `x % c` for an x below 2c: one wrap at most. */
  function Wrap(x: nat, c: nat): (k: nat)
    requires x < 2 * c
    ensures k < c
  {
    if x < c then x else x - c
  }

  /** The C expression `x % c` is Wrap(x, c) when x is below 2c. */
  lemma ModIsWrap(x: nat, c: nat)
    requires x < 2 * c
    ensures x % c == Wrap(x, c)
  {
    if x >= c {
      assert x == 1 * c + (x - c);
    }
  }

  /**
   * The n entries of a circular buffer read from slot h on, oldest first:
   * entry i is in slot (h + i) % |a|.
   */
  function Window(a: seq<Process?>, h: nat, n: nat): (r: seq<Process?>)
    requires h < |a| && n <= |a|
    ensures |r| == n
  {
    seq(n, i requires 0 <= i < n => a[Wrap(h + i, |a|)])
  }

  /** Writing the slot just after the n live entries adds a newest entry and keeps the others. */
  lemma WindowAppend(a: seq<Process?>, h: nat, n: nat, p: Process?)
    requires h < |a| && n < |a|
    ensures Window(a[Wrap(h + n, |a|) := p], h, n + 1) == Window(a, h, n) + [p]
  {
    var b := a[Wrap(h + n, |a|) := p];
    forall i | 0 <= i < n
      ensures Window(b, h, n + 1)[i] == Window(a, h, n)[i]
    {
      assert Wrap(h + i, |a|) != Wrap(h + n, |a|);
    }
  }

  /** Moving the first slot one on drops the oldest entry. */
  lemma WindowAdvance(a: seq<Process?>, h: nat, n: nat)
    requires h < |a| && 0 < n <= |a|
    ensures Window(a, Wrap(h + 1, |a|), n - 1) == Window(a, h, n)[1..]
  {
    var w := Window(a, h, n);
    var v := Window(a, Wrap(h + 1, |a|), n - 1);
    forall i | 0 <= i < n - 1
      ensures v[i] == w[i + 1]
    {
      assert Wrap(Wrap(h + 1, |a|) + i, |a|) == Wrap(h + (i + 1), |a|);
    }
  }

  /** Read from slot 0, a buffer at least n long holds its first n entries in order. */
  lemma WindowFromZero(a: seq<Process?>, n: nat)
    requires 0 < |a| && n <= |a|
    ensures Window(a, 0, n) == a[..n]
  {
    forall i | 0 <= i < n
      ensures Window(a, 0, n)[i] == a[i]
    {
      assert Wrap(0 + i, |a|) == i;
    }
  }

  /**
   * The global `ready_queue`: `items[0..capacity)` used as a circular buffer
   * holding `size` entries from slot `head` on; `tail` is where the next
   * entry goes.
   */
  class ReadyQueue {
    var items: array<Process?>
    var capacity: nat
    var size: nat
    var head: nat
    var tail: nat

    /**
     * tail = (head + size) mod capacity (see ModIsWrap) and size <= capacity
     * hold at every call boundary; the capacity starts at 16 and only doubles.
     */
    ghost predicate Valid()
      reads this
    {
      && capacity == items.Length && INITIAL_CAPACITY <= capacity
      && size <= capacity && head < capacity
      && tail == Wrap(head + size, capacity)
    }

    /** The queued processes, the one `dequeue_ready` returns next first. */
    function Contents(): (r: seq<Process?>)
      requires Valid()
      reads this, items
      ensures |r| == size
    {
      Window(items[..], head, size)
    }

    /** `init_ready_queue`: capacity 16, size 0, head = tail = 0. */
    constructor ()
      ensures Valid() && fresh(items)
      ensures capacity == INITIAL_CAPACITY && size == 0 && head == 0 && tail == 0
      ensures Contents() == []
    {
      items := new Process?[INITIAL_CAPACITY](_ => null);
      capacity := INITIAL_CAPACITY;
      size := 0;
      head := 0;
      tail := 0;
    }

    /**
     * The growth step of `enqueue_ready`: the entries are copied oldest first
     * into slots 0..size-1 of an array twice as large, with head = 0 and
     * tail = size.
     */
    method Grow()
      requires Valid() && size == capacity
      modifies this
      ensures Valid() && fresh(items)
      ensures capacity == 2 * old(capacity) && size == old(size) && head == 0 && tail == size
      ensures items[..size] == old(Contents())
      ensures Contents() == old(Contents())
    {
      var newCap := capacity * 2;
      var newItems := new Process?[newCap](_ => null);
      ghost var before := Contents();
      var i := 0;
      while i < size
        modifies newItems
        invariant 0 <= i <= size
        invariant newItems[..i] == before[..i]
      {
        ModIsWrap(head + i, capacity);
        newItems[i] := items[(head + i) % capacity];
        i := i + 1;
      }
      items := newItems;
      capacity := newCap;
      head := 0;
      tail := size;
      assert items[..size] == before;
      WindowFromZero(items[..], size);
      ModIsWrap(size, capacity);
    }

    /** The store step of `enqueue_ready` on a queue with room: p goes into slot tail. */
    method Put(p: Process?)
      requires Valid() && size < capacity
      modifies items, this`tail, this`size
      ensures Valid() && Contents() == old(Contents()) + [p]
      ensures items[..] == old(items[..])[old(tail) := p]
      ensures size == old(size) + 1 && tail == (old(tail) + 1) % capacity
    {
      ghost var a := items[..];
      ModIsWrap(tail + 1, capacity);
      items[tail] := p;
      WindowAppend(a, head, size, p);
      tail := (tail + 1) % capacity;
      size := size + 1;
    }

    /**
     * `enqueue_ready`: after growing a full queue, p is stored at tail, tail
     * moves on modulo the capacity and size grows by one; p leaves after
     * every entry already queued.
     */
    method Enqueue(p: Process?)
      requires Valid()
      modifies this, items
      ensures Valid() && Contents() == old(Contents()) + [p]
      ensures size == old(size) + 1
      ensures old(size) < old(capacity) ==>
                && items == old(items) && capacity == old(capacity) && head == old(head)
                && items[old(tail)] == p && tail == (old(tail) + 1) % capacity
      ensures old(size) == old(capacity) ==>
                && fresh(items) && capacity == 2 * old(capacity) && head == 0
                && items[..old(size)] == old(Contents()) && items[old(size)] == p && tail == old(size) + 1
    {
      if size == capacity {
        Grow();
        ghost var grown := items[..];
        ModIsWrap(size + 1, capacity);
        Put(p);
        assert items[..size - 1] == grown[..size - 1];
      } else {
        Put(p);
      }
    }

    /**
     * `dequeue_ready`: NULL on an empty queue, which is left as it is;
     * otherwise the entry at head, with head moved on modulo the capacity
     * and size one smaller.
     */
    method Dequeue() returns (p: Process?)
      requires Valid()
      modifies this
      ensures Valid() && items == old(items) && capacity == old(capacity) && tail == old(tail)
      ensures old(size) == 0 ==> p == null && size == 0 && head == old(head)
      ensures old(size) > 0 ==>
                && p == old(Contents())[0] && Contents() == old(Contents())[1..]
                && head == (old(head) + 1) % capacity && size == old(size) - 1
    {
      if size == 0 {
        return null;
      }
      p := items[head];
      assert Contents()[0] == items[Wrap(head + 0, capacity)];
      WindowAdvance(items[..], head, size);
      ModIsWrap(head + 1, capacity);
      ModIsWrap(head + size, capacity);
      ModIsWrap(Wrap(head + 1, capacity) + size - 1, capacity);
      head := (head + 1) % capacity;
      size := size - 1;
    }
  }

  /** The state one tick leaves a process in: a sleeper whose wake-up tick has come is READY. */
  function Woken(state: ProcState, sleepUntil: int, now: int): (r: ProcState)
    ensures r != state ==> state == Sleeping && r == Ready && now >= sleepUntil
  {
    if state == Sleeping && now >= sleepUntil then Ready else state
  }

  /**
   * SLEEP(n) with n below minus the current tick: the wake-up tick wraps to
   * just under 2^64 (SLEEP(-5) at tick 2 gives 2^64 - 3), and the scheduler
   * keeps the process asleep on every tick before that one.
   */
  lemma NegativeSleepOversleeps(ticks: U64, n: int, now: int)
    requires ticks + n < 0 && n >= -TWO_POW_64
    requires now < TWO_POW_64 + ticks + n
    ensures WakeTick(ticks, n) == TWO_POW_64 + ticks + n
    ensures Woken(Sleeping, WakeTick(ticks, n), now) == Sleeping
  {
  }

  /** The scheduler's globals: `CPU_TICKS`, `cpu_cores` and `num_cores`. */
  class Scheduler {
    var cpuTicks: U64
    var cores: array<Process?>
    var numCores: int

    constructor ()
      ensures cpuTicks == 0 && cores.Length == 0 && numCores == 0
    {
      cpuTicks := 0;
      cores := new Process?[0];
      numCores := 0;
    }

    /**
     * One pass of the `scheduler_loop` body: CPU_TICKS grows by one (modulo
     * 2^64) and every SLEEPING process in the table whose wake-up tick has
     * come is made READY; no other process state and no other field changes.
     */
    method Tick(table: ProcessTable)
      requires table.Valid()
      requires forall i :: 0 <= i < table.count ==> table.slots[i] != null
      modifies this`cpuTicks, set i | 0 <= i < table.count :: table.slots[i]`state
      ensures cpuTicks == (old(cpuTicks) + 1) % TWO_POW_64
      ensures forall i :: 0 <= i < table.count ==>
                table.slots[i].state == Woken(old(table.slots[i].state), table.slots[i].sleepUntilTick, cpuTicks)
    {
      cpuTicks := (cpuTicks + 1) % TWO_POW_64;
      var i := 0;
      while i < table.count
        modifies set i | 0 <= i < table.count :: table.slots[i]`state
        invariant 0 <= i <= table.count
        invariant forall j :: 0 <= j < table.count ==>
                    table.slots[j].state ==
                      if j < i || table.slots[j] in table.slots[..i]
                      then Woken(old(table.slots[j].state), table.slots[j].sleepUntilTick, cpuTicks)
                      else old(table.slots[j].state)
      {
        Wake(table.slots[i], cpuTicks);
        i := i + 1;
      }
    }

    /** The wake-up test of `scheduler_loop` on one process. */
    static method Wake(p: Process, now: int)
      modifies p`state
      ensures p.state == Woken(old(p.state), p.sleepUntilTick, now)
    {
      if p.state == Sleeping && now >= p.sleepUntilTick {
        p.state := Ready;
      }
    }

    /** `init_cpu_cores(n)`: num_cores = n and n empty core slots (none for n <= 0). */
    method InitCpuCores(n: int)
      modifies this
      ensures numCores == n && fresh(cores) && cores.Length == (if n < 0 then 0 else n)
      ensures forall k :: 0 <= k < cores.Length ==> cores[k] == null
      ensures cpuTicks == old(cpuTicks)
    {
      numCores := n;
      cores := new Process?[if n < 0 then 0 else n];
      var i := 0;
      while i < n
        invariant 0 <= i && (n >= 0 ==> i <= n) && i <= cores.Length
        invariant forall k :: 0 <= k < i ==> cores[k] == null
        modifies cores
      {
        cores[i] := null;
        i := i + 1;
      }
    }
  }
}
