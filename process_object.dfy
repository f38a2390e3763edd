/**
 * The `src/` process as src/process.c changes it in place: the character
 * buffer `trim` edits, the variable array `get_variable` searches and grows,
 * the loop stack `execute_instruction` pushes and pops, and the global
 * process table `add_process` grows. Every method is proved to leave the
 * object in the state the functions of ProcessVariables and ProcessVm
 * describe.
 */
module ProcessObject {
  import opened Wrappers
  import opened CText
  import opened ProcessVariables
  import opened ProcessVm

  /** Index of the terminating NUL of a character buffer. */
  function NulIndex(s: string): (n: nat)
    requires '\0' in s
    ensures n < |s| && s[n] == '\0'
    ensures forall k :: 0 <= k < n ==> s[k] != '\0'
  {
    if s[0] == '\0' then 0 else 1 + NulIndex(s[1..])
  }

  /** The C string a buffer holds. */
  function CStr(s: string): (r: CString)
    requires '\0' in s
    ensures r == s[..NulIndex(s)]
  {
    s[..NulIndex(s)]
  }

  /** SkipSpaces is the first position, from i on, that is not white space. */
  lemma {:induction false} SkipSpacesAt(s: string, i: nat, j: nat)
    requires i <= j <= |s|
    requires forall k :: i <= k < j ==> IsSpace(s[k])
    requires j < |s| ==> !IsSpace(s[j])
    ensures SkipSpaces(s, i) == j
    decreases j - i
  {
    if i < j {
      SkipSpacesAt(s, i + 1, j);
    }
  }

  /** StripTrailing keeps exactly the prefix ending at the last character that is not white space. */
  lemma StripTrailingAt(s: string, e: nat)
    requires e < |s| && !IsSpace(s[e])
    requires forall k :: e < k < |s| ==> IsSpace(s[k])
    ensures StripTrailing(s) == s[..e + 1]
  {
  }

  /**
   * `trim`: skips leading white space with its own copy of the pointer,
   * returns on an all-white-space string, and otherwise writes a NUL after
   * the last character that is not white space.
   */
  method Trim(buf: array<char>)
    requires '\0' in buf[..]
    modifies buf
    ensures '\0' in buf[..] && CStr(buf[..]) == SrcTrim(old(CStr(buf[..])))
  {
    ghost var s := CStr(buf[..]);
    var len := NulIndex(buf[..]);
    var start := 0;
    while IsSpace(buf[start])
      invariant 0 <= start <= len
      invariant forall k :: 0 <= k < start ==> IsSpace(s[k])
      decreases len - start
    {
      start := start + 1;
    }
    if buf[start] == '\0' {
      SkipSpacesAt(s, 0, start);
      return;
    }
    SkipSpacesAt(s, 0, start);
    var end := len - 1;
    while end > start && IsSpace(buf[end])
      invariant start <= end < len
      invariant forall k :: end < k < len ==> IsSpace(s[k])
    {
      end := end - 1;
    }
    StripTrailingAt(s, end);
    ghost var before := buf[..];
    buf[end + 1] := '\0';
    assert buf[..] == before[end + 1 := '\0'];
    TerminateAt(before, buf[..], end);
  }

  /** A NUL written just after position e of a C string cuts it to its first e + 1 characters. */
  lemma TerminateAt(b: string, t: string, e: nat)
    requires '\0' in b && e < NulIndex(b) && t == b[e + 1 := '\0']
    ensures '\0' in t && CStr(t) == CStr(b)[..e + 1]
  {
    assert t[e + 1] == '\0';
    assert forall k :: 0 <= k <= e ==> t[k] == b[k];
    assert NulIndex(t) == e + 1;
  }

  /** `strncpy` of at most 49 characters into a NUL-filled buffer of MAX_PROCESS_NAME. */
  method CopyTruncated(name: CString) returns (buf: array<char>)
    ensures fresh(buf) && buf.Length == MAX_PROCESS_NAME && '\0' in buf[..]
    ensures CStr(buf[..]) == if |name| <= MAX_PROCESS_NAME - 1 then name else name[..MAX_PROCESS_NAME - 1]
  {
    buf := new char[MAX_PROCESS_NAME](_ => '\0');
    var i := 0;
    while i < |name| && i < MAX_PROCESS_NAME - 1
      invariant 0 <= i <= |name| && i <= MAX_PROCESS_NAME - 1
      invariant buf[..i] == name[..i]
      invariant forall k :: i <= k < buf.Length ==> buf[k] == '\0'
    {
      buf[i] := name[i];
      i := i + 1;
    }
    assert buf[..][i] == '\0';
    assert forall k :: 0 <= k < i ==> buf[..][k] == name[k] && name[k] in name;
  }

  /** One more character of input adds itself to RemoveSpaces unless it is white space. */
  lemma RemoveSpacesStep(s: string, r: nat)
    requires r < |s|
    ensures RemoveSpaces(s[..r + 1]) == RemoveSpaces(s[..r]) + (if IsSpace(s[r]) then [] else [s[r]])
  {
    assert s[..r + 1][..r] == s[..r];
  }

  /** The compaction loop of `get_variable`: every white space character of the string is dropped in place. */
  method RemoveSpacesInPlace(buf: array<char>) returns (key: string)
    requires '\0' in buf[..]
    modifies buf
    ensures key == RemoveSpaces(old(CStr(buf[..])))
  {
    ghost var t := buf[..];
    ghost var s := CStr(t);
    ghost var n := NulIndex(t);
    var r := 0;
    var w := 0;
    while buf[r] != '\0'
      invariant 0 <= w <= r <= n
      invariant buf[..w] == RemoveSpaces(s[..r])
      invariant forall k :: r <= k < buf.Length ==> buf[k] == t[k]
      decreases n - r
    {
      RemoveSpacesStep(s, r);
      var c := buf[r];
      if !IsSpace(c) {
        buf[w] := c;
        w := w + 1;
      }
      r := r + 1;
    }
    assert s[..r] == s;
    key := buf[..w];
  }

  /**
   * The name `get_variable` searches for: at most 49 characters copied into
   * a NUL-padded buffer, `trim`med, then compacted in place.
   */
  method NameKeyOf(name: CString) returns (key: string)
    ensures key == NameKey(name)
  {
    var buf := CopyTruncated(name);
    Trim(buf);
    key := RemoveSpacesInPlace(buf);
  }

  /**
   * A `src/` process as src/process.c uses it. The instruction array and the
   * loop stack are allocated once; the variable array is replaced when it
   * grows.
   */
  class Process {
    const pid: int
    const name: string
    var state: ProcState
    var programCounter: int
    var sleepUntilTick: int
    var variables: array?<Variable>
    var numVar: int
    var variablesCapacity: int
    const instructions: array?<Instruction>
    const numInst: int
    /** `for_stack`, MAX_LOOP_DEPTH entries. */
    const forStack: array<ForContext>
    var forDepth: int
    const maxLoopDepth: nat

    /** The counters are within the arrays they count. */
    predicate Shape()
      reads this, variables
    {
      && forStack.Length == maxLoopDepth
      && 0 <= forDepth <= maxLoopDepth
      && (variables != null ==> 1 <= variablesCapacity == variables.Length && 0 <= numVar <= variablesCapacity)
    }

    /** The part of the process one step reads and writes, as a value. */
    function Snapshot(): VmState
      requires Shape()
      reads this, variables, instructions, forStack
    {
      VmState(
        programCounter, state, sleepUntilTick, numInst,
        if instructions == null then None else Some(instructions[..]),
        if variables == null then None else Some(Table(variables[..numVar], variablesCapacity)),
        forStack[..forDepth])
    }

    function TableOf(): (t: Table)
      requires Shape() && variables != null
      reads this, variables
      ensures TableValid(t)
    {
      Table(variables[..numVar], variablesCapacity)
    }

    ghost predicate Valid()
      reads this, variables, instructions, forStack
    {
      && Shape()
      && (instructions != null ==> numInst <= instructions.Length)
      && WellFormed(Snapshot(), maxLoopDepth)
    }

    /**
     * The state `generate_dummy_process` leaves: READY at instruction 0, an
     * empty variable array of capacity 8 and no open loop; the instructions
     * are given instead of drawn at random.
     */
    constructor (pid: int, name: string, program: seq<Instruction>, maxLoopDepth: nat)
      ensures Valid() && fresh(variables) && fresh(instructions) && fresh(forStack)
      ensures Snapshot() == VmState(0, Ready, 0, |program|, Some(program), Some(Table([], 8)), [])
    {
      this.pid := pid;
      this.name := name;
      state := Ready;
      programCounter := 0;
      sleepUntilTick := 0;
      numVar := 0;
      variablesCapacity := 8;
      variables := new Variable[8](_ => Variable("", 0));
      var insts := new Instruction[|program|](k requires 0 <= k < |program| => program[k]);
      instructions := insts;
      numInst := |program|;
      forStack := new ForContext[maxLoopDepth](_ => ForContext(0, 0, 0, []));
      forDepth := 0;
      this.maxLoopDepth := maxLoopDepth;
      new;
      assert instructions[..] == program;
    }

    /**
     * `get_variable`: the index of the variable filed under NameKey(name),
     * or -1 for NULL. It searches `variables[0..num_var)`; an unknown name is
     * written at `num_var` with value 0, after the array has been copied into
     * one twice the size when it was full.
     */
    method GetVariable(name: CString) returns (idx: int)
      requires Valid()
      modifies this, variables
      ensures Valid() && (variables == null <==> old(variables) == null)
      ensures variables == old(variables) || fresh(variables)
      ensures variables == old(variables) <==> variablesCapacity == old(variablesCapacity)
      ensures old(variables) == null ==> idx == -1 && Snapshot() == old(Snapshot())
      ensures old(variables) != null ==>
        var (d, t) := Lookup(old(TableOf()), name);
        && idx == (if d.Some? then d.value else -1)
        && Snapshot() == old(Snapshot()).(table := Some(t))
    {
      if variables == null {
        return -1;
      }
      var key := NameKeyOf(name);
      var i := FindIndex(key);
      if i >= 0 {
        return i;
      }
      if numVar >= variablesCapacity {
        if variablesCapacity >= MAX_VARIABLES_CAPACITY {
          return -1;
        }
        Grow();
      }
      idx := Append(key);
    }

    /** The `strcmp` scan of `get_variable` over `variables[0..num_var)`; -1 when no name matches. */
    method FindIndex(key: string) returns (i: int)
      requires Shape() && variables != null
      ensures i == -1 <==> FindName(TableOf().vars, key).None?
      ensures i != -1 ==> FindName(TableOf().vars, key) == Some(i)
    {
      i := 0;
      while i < numVar
        invariant 0 <= i <= numVar
        invariant forall j :: 0 <= j < i ==> variables[j].name != key
      {
        if variables[i].name == key {
          assert TableOf().vars[i].name == key;
          return i;
        }
        i := i + 1;
      }
      assert forall j :: 0 <= j < numVar ==> TableOf().vars[j].name != key;
      i := -1;
    }

    /** The growth branch of `get_variable`: the entries are copied into a fresh array twice the size. */
    method Grow()
      requires Valid() && variables != null
      modifies this
      ensures Valid() && fresh(variables)
      ensures Snapshot() == old(Snapshot()).(table := Some(Table(old(TableOf()).vars, 2 * old(variablesCapacity))))
    {
      var newCap := variablesCapacity * 2;
      var newVars := new Variable[newCap](_ => Variable("", 0));
      var k := 0;
      while k < variablesCapacity
        modifies newVars
        invariant 0 <= k <= variablesCapacity
        invariant newVars[..k] == variables[..k]
      {
        newVars[k] := variables[k];
        k := k + 1;
      }
      assert newVars[..numVar] == variables[..numVar];
      variables := newVars;
      variablesCapacity := newCap;
    }

    /** A new variable at `num_var` with value 0. */
    method Append(key: string) returns (idx: int)
      requires Valid() && variables != null && numVar < variablesCapacity
      modifies this, variables
      ensures Valid() && variables == old(variables) && idx == old(numVar)
      ensures Snapshot() == old(Snapshot()).(table := Some(Table(old(TableOf()).vars + [Variable(key, 0)], variablesCapacity)))
    {
      variables[numVar] := Variable(key, 0);
      idx := numVar;
      numVar := numVar + 1;
      assert variables[..numVar] == old(variables[..numVar]) + [Variable(key, 0)];
    }

    /** `resolve_value`: the fallback for an empty operand, else the variable's value. */
    method ResolveValue(arg: CString, fallback: U16) returns (v: U16)
      requires Valid()
      modifies this, variables
      ensures Valid() && (variables == null <==> old(variables) == null)
      ensures variables == old(variables) || fresh(variables)
      ensures variables == old(variables) <==> variablesCapacity == old(variablesCapacity)
      ensures old(variables) == null ==> v == fallback && Snapshot() == old(Snapshot())
      ensures old(variables) != null ==>
        var (rv, t) := Resolve(old(TableOf()), arg, fallback);
        v == rv && Snapshot() == old(Snapshot()).(table := Some(t))
    {
      if arg == [] {
        return fallback;
      }
      var d := GetVariable(arg);
      if d >= 0 {
        v := variables[d].value;
      } else {
        v := fallback;
      }
    }

    /**
     * The cases of the switch that only read and write variables; `defined`
     * is false when the step is undefined in C, and the process is then only
     * known to be well formed.
     */
    method ApplyTableEffect(inst: Instruction, mem: U16 -> U16) returns (defined: bool)
      requires Valid() && variables != null && TableOnly(inst)
      modifies this, variables
      ensures Valid() && variables != null
      ensures defined == TableEffect(old(TableOf()), inst, mem).Some?
      ensures defined ==> Snapshot() == old(Snapshot()).(table := TableEffect(old(TableOf()), inst, mem))
    {
      defined := true;
      match inst.kind
      case Declare => DeclareStep(inst);
      case Add => ArithStep(inst, true);
      case Subtract => ArithStep(inst, false);
      case Read => defined := ReadStep(inst, mem);
      case Write =>
        var addr := ResolveValue(inst.arg1, 0);
    }

    /** Writes `value` into variable d. */
    method Store(d: int, value: U16)
      requires Valid() && variables != null && 0 <= d < numVar
      modifies variables
      ensures Valid()
      ensures Snapshot() == old(Snapshot()).(table := Some(SetValue(old(TableOf()), d, value)))
    {
      variables[d] := variables[d].(value := value);
      assert variables[..numVar] == old(variables[..numVar])[d := old(variables[d]).(value := value)];
    }

    /** `get_variable(name)` and, when it is not NULL, a store of v into that variable. */
    method AssignVariable(name: CString, v: U16)
      requires Valid() && variables != null
      modifies this, variables
      ensures Valid() && variables != null && (variables == old(variables) || fresh(variables))
      ensures Snapshot() == old(Snapshot()).(table := Some(Assign(old(TableOf()), name, v)))
    {
      var d := GetVariable(name);
      if d >= 0 {
        Store(d, v);
      }
    }

    /** DECLARE: the variable, created if needed, receives the clamped constant. */
    method DeclareStep(inst: Instruction)
      requires Valid() && variables != null
      modifies this, variables
      ensures Valid() && variables != null && (variables == old(variables) || fresh(variables))
      ensures Snapshot() == old(Snapshot()).(table := Some(DeclareEffect(old(TableOf()), inst)))
    {
      AssignVariable(inst.arg1, Store16(inst.value));
    }

    /** ADD and SUBTRACT: both operands first, then the destination. */
    method ArithStep(inst: Instruction, add: bool)
      requires Valid() && variables != null
      modifies this, variables
      ensures Valid() && variables != null && (variables == old(variables) || fresh(variables))
      ensures Snapshot() == old(Snapshot()).(table := Some(ArithEffect(old(TableOf()), inst, add)))
    {
      ghost var before := Snapshot();
      var v2, v3 := ResolveOperands(inst);
      ghost var t2 := TableOf();
      var v := Store16(if add then v2 as int + v3 as int else v2 as int - v3 as int);
      assert ArithEffect(before.table.value, inst, add) == Assign(t2, inst.arg1, v);
      AssignVariable(inst.arg1, v);
    }

    /** The two operand resolutions of ADD and SUBTRACT, in order. */
    method ResolveOperands(inst: Instruction) returns (v2: U16, v3: U16)
      requires Valid() && variables != null
      modifies this, variables
      ensures Valid() && variables != null && (variables == old(variables) || fresh(variables))
      ensures var (r2, t1) := Resolve(old(TableOf()), inst.arg2, 0);
        var (r3, t2) := Resolve(t1, inst.arg3, 0);
        v2 == r2 && v3 == r3 && Snapshot() == old(Snapshot()).(table := Some(t2))
    {
      v2 := ResolveValue(inst.arg2, 0);
      v3 := ResolveValue(inst.arg3, 0);
    }

    /**
     * READ: the destination first, then the address, then the word read at
     * it; `defined` is false when the store goes through a dangling pointer.
     */
    method ReadStep(inst: Instruction, mem: U16 -> U16) returns (defined: bool)
      requires Valid() && variables != null
      modifies this, variables
      ensures Valid() && variables != null && (variables == old(variables) || fresh(variables))
      ensures defined == ReadEffect(old(TableOf()), inst, mem).Some?
      ensures defined ==> Snapshot() == old(Snapshot()).(table := ReadEffect(old(TableOf()), inst, mem))
    {
      LookupSpec(TableOf(), inst.arg1);
      var d := GetVariable(inst.arg1);
      defined := true;
      if d >= 0 {
        defined := StoreRead(d, inst.arg2, mem);
      }
    }

    /**
     * The rest of READ once the destination is variable d: the address is
     * resolved, and the word read at it is stored through a pointer into
     * the array as it was before. When that resolution moved the variables
     * to a new array, the store lands in the abandoned one (freed memory in
     * C) and `defined` is false.
     */
    method StoreRead(d: int, arg: CString, mem: U16 -> U16) returns (defined: bool)
      requires Valid() && variables != null && 0 <= d < numVar
      modifies this, variables
      ensures Valid() && variables != null && (variables == old(variables) || fresh(variables))
      ensures var (addr, t2) := Resolve(old(TableOf()), arg, 0);
        && (defined <==> t2.capacity == old(variablesCapacity))
        && (defined ==> Snapshot() == old(Snapshot()).(table := Some(SetValue(t2, d, mem(addr)))))
    {
      ResolveSpec(TableOf(), arg, 0);
      var dest := variables;
      var addr := ResolveValue(arg, 0);
      defined := variables == dest;
      if defined {
        Store(d, mem(addr));
      } else {
        dest[d] := dest[d].(value := mem(addr));
      }
    }

    /** The common tail: the innermost loop's cursor, or else the program counter, moves on. */
    method AdvanceCursor()
      requires Valid()
      modifies this, forStack
      ensures Valid() && variables == old(variables)
      ensures Snapshot() == Advance(old(Snapshot()))
    {
      if forDepth > 0 {
        var top := forStack[forDepth - 1];
        forStack[forDepth - 1] := top.(index := top.index + 1);
        assert forStack[..forDepth] == old(forStack[..forDepth])[forDepth - 1 := top.(index := top.index + 1)];
      } else {
        programCounter := programCounter + 1;
      }
    }

    /**
     * `execute_instruction` at CPU tick `ticks`, with `mem` standing for
     * `read_from_memory`: one step, exactly as Exec describes it.
     */
    method Execute(ticks: int, mem: U16 -> U16) returns (defined: bool)
      requires Valid()
      modifies this, variables, forStack
      ensures Valid()
      ensures defined == Exec(old(Snapshot()), ticks, mem, maxLoopDepth).Some?
      ensures defined ==> Snapshot() == Exec(old(Snapshot()), ticks, mem, maxLoopDepth).value
      decreases maxLoopDepth - forDepth, 2
    {
      defined := true;
      if programCounter < 0 || instructions == null || variables == null {
        return;
      }
      if programCounter >= numInst {
        return;
      }
      var inst, popped := SelectInstruction();
      if !popped {
        defined := RunInstruction(inst, ticks, mem);
      }
    }

    /**
     * The head of `execute_instruction`: with a loop open, the sub-instruction
     * under the cursor, or a restart at sub-instruction 0, or the pop of an
     * exhausted loop; otherwise the instruction at the program counter.
     */
    method SelectInstruction() returns (inst: Instruction, popped: bool)
      requires Valid() && !Halted(Snapshot())
      modifies this, forStack
      ensures Valid() && variables == old(variables)
      ensures popped <==> Select(old(Snapshot()), maxLoopDepth).Pop?
      ensures popped ==> Snapshot() == Select(old(Snapshot()), maxLoopDepth).after
      ensures !popped ==> forDepth == old(forDepth)
      ensures !popped ==> Snapshot() == Select(old(Snapshot()), maxLoopDepth).from
      ensures !popped ==> inst == Select(old(Snapshot()), maxLoopDepth).inst
    {
      popped := false;
      if forDepth == 0 {
        inst := instructions[programCounter];
        return;
      }
      var ctx := forStack[forDepth - 1];
      if ctx.index < |ctx.body| {
        inst := ctx.body[ctx.index];
      } else if ctx.remaining > 0 {
        var restarted := ctx.(remaining := ctx.remaining - 1, index := 0);
        forStack[forDepth - 1] := restarted;
        assert forStack[..forDepth] == old(forStack[..forDepth])[forDepth - 1 := restarted];
        inst := ctx.body[0];
      } else {
        forDepth := forDepth - 1;
        programCounter := programCounter + 1;
        popped := true;
        inst := ctx.body[0];
      }
    }

    /** The switch of `execute_instruction` on one instruction, then the common tail. */
    method RunInstruction(inst: Instruction, ticks: int, mem: U16 -> U16) returns (defined: bool)
      requires Valid() && variables != null
      modifies this, variables, forStack
      ensures Valid()
      ensures defined == Run(old(Snapshot()), inst, ticks, mem, maxLoopDepth).Some?
      ensures defined ==> Snapshot() == Run(old(Snapshot()), inst, ticks, mem, maxLoopDepth).value
      decreases maxLoopDepth - forDepth, 1
    {
      defined := true;
      if OpensLoop(inst) {
        defined := OpenLoop(inst, ticks, mem);
      } else if inst.kind == Sleep {
        state := Sleeping;
        sleepUntilTick := WakeTick(ticks, inst.value);
      } else {
        defined := ApplyTableEffect(inst, mem);
      }
      AdvanceCursor();
    }

    /** The FOR case (reached by PRINT too): push, run one nested step, or skip at the depth limit. */
    method OpenLoop(inst: Instruction, ticks: int, mem: U16 -> U16) returns (defined: bool)
      requires Valid() && variables != null && OpensLoop(inst)
      modifies this, variables, forStack
      ensures Valid()
      ensures defined == Open(old(Snapshot()), inst, ticks, mem, maxLoopDepth).Some?
      ensures defined ==> Snapshot() == Open(old(Snapshot()), inst, ticks, mem, maxLoopDepth).value
      decreases maxLoopDepth - forDepth, 0
    {
      defined := true;
      if forDepth < maxLoopDepth && |inst.body| > 0 {
        ghost var before := Snapshot();
        forStack[forDepth] := ForContext(inst.repeatCount, inst.repeatCount - 1, 0, inst.body);
        forDepth := forDepth + 1;
        assert Snapshot() == Push(before, inst, maxLoopDepth);
        defined := Execute(ticks, mem);
      } else {
        programCounter := programCounter + 1;
      }
    }
  }

  /**
   * The global `process_table` of src/process.c: a pointer array that grows
   * from 0 to 8 slots and then doubles, and the count of entries in use.
   */
  class ProcessTable {
    var slots: array<Process?>
    var count: nat

    ghost predicate Valid()
      reads this
    {
      count <= slots.Length
    }

    function Contents(): seq<Process?>
      requires Valid()
      reads this, slots
    {
      slots[..count]
    }

    /** No table yet: NULL with size 0. */
    constructor ()
      ensures Valid() && Contents() == [] && slots.Length == 0
    {
      slots := new Process?[0];
      count := 0;
    }

    /** `add_process`: appends p, growing the table (0 to 8, else doubling) when it is full. */
    method AddProcess(p: Process?)
      requires Valid()
      modifies this, slots
      ensures Valid() && Contents() == old(Contents()) + [p]
      ensures slots.Length == if old(count) >= old(slots.Length) then
                                (if old(slots.Length) == 0 then 8 else 2 * old(slots.Length))
                              else old(slots.Length)
    {
      if count >= slots.Length {
        var newSize := if slots.Length == 0 then 8 else slots.Length * 2;
        var grown := new Process?[newSize](_ => null);
        var k := 0;
        while k < count
          modifies grown
          invariant 0 <= k <= count
          invariant grown[..k] == slots[..k]
        {
          grown[k] := slots[k];
          k := k + 1;
        }
        slots := grown;
      }
      slots[count] := p;
      count := count + 1;
    }
  }
}
