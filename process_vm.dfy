/**
 * One step of the per-process instruction interpreter of src/process.c
 * (`execute_instruction`), stated as a function on the part of a process
 * the step reads and writes. The class in ProcessObject runs the same step
 * in place and is proved equal to this function.
 */
module ProcessVm {
  import opened Wrappers
  import opened ProcessVariables
  import opened CText

  datatype ProcState = Ready | Running | Sleeping | Finished

  datatype InstrType = Declare | Add | Subtract | Print | Sleep | For | Read | Write

  /**
   * An instruction as src/process.c uses it: three operand strings, an
   * integer value (DECLARE constant, numeric operand, SLEEP ticks, WRITE
   * value), a repeat count and the owned sub-instruction list of a FOR.
   */
  datatype Instruction = Instruction(
    kind: InstrType,
    arg1: CString, arg2: CString, arg3: CString,
    value: int,
    repeatCount: int,
    body: seq<Instruction>)

  /** A frame of `for_stack`: remaining repeats, cursor, and the loop body. */
  datatype ForContext = ForContext(repeatCount: int, remaining: int, index: int, body: seq<Instruction>)

  /**
   * What a step reads and writes: program counter, state, wake tick,
   * `num_inst`, the instruction array (None for NULL), the variable table
   * (None for NULL) and the open loop contexts `for_stack[0..for_depth)`.
   */
  datatype VmState = VmState(
    pc: int,
    state: ProcState,
    sleepUntil: int,
    numInst: int,
    insts: Option<seq<Instruction>>,
    table: Option<Table>,
    stack: seq<ForContext>)

  /**
   * At most maxDepth open loops, `num_inst` within the instruction array, and
   * every open loop has a non-empty body and a cursor that never went below 0
   * (FOR pops an empty body at once, and cursors only move forward).
   */
  ghost predicate WellFormed(s: VmState, maxDepth: nat) {
    && |s.stack| <= maxDepth
    && (s.insts.Some? ==> s.numInst <= |s.insts.value|)
    && forall i :: 0 <= i < |s.stack| ==> FrameOk(s.stack[i])
  }

  ghost predicate FrameOk(c: ForContext) {
    |c.body| > 0 && c.index >= 0
  }

  /** An instruction with no READ in it, sub-instruction lists included. */
  predicate ReadFreeInst(inst: Instruction)
    decreases inst
  {
    inst.kind != Read && forall k :: 0 <= k < |inst.body| ==> ReadFreeInst(inst.body[k])
  }

  /** No READ anywhere in the instruction array or in the body of an open loop. */
  ghost predicate ReadFree(s: VmState) {
    && (s.insts.Some? ==> forall k :: 0 <= k < |s.insts.value| ==> ReadFreeInst(s.insts.value[k]))
    && forall j, k :: 0 <= j < |s.stack| && 0 <= k < |s.stack[j].body| ==> ReadFreeInst(s.stack[j].body[k])
  }

  /** `CLAMP_UINT16` followed by the store into a `uint16_t`. */
  function Store16(x: int): (r: U16)
    ensures 0 <= x ==> r == if x > 65535 then 65535 else x
    ensures -0x1_0000 <= x < 0 ==> r == x + 0x1_0000
  {
    (if x > 65535 then 65535 else x) % 0x1_0000
  }

  /** The step guard: these states are left exactly as they are. */
  predicate Halted(s: VmState) {
    s.pc < 0 || s.insts.None? || s.table.None? || s.pc >= s.numInst
  }

  /** After an instruction: the innermost loop's cursor, or else the program counter, moves on by one. */
  function Advance(s: VmState): (r: VmState)
    ensures |s.stack| == 0 ==> r == s.(pc := s.pc + 1)
    ensures |s.stack| > 0 ==>
              && r.pc == s.pc && |r.stack| == |s.stack|
              && r.stack == s.stack[|s.stack| - 1 := s.stack[|s.stack| - 1].(index := s.stack[|s.stack| - 1].index + 1)]
    ensures r.table == s.table && r.state == s.state && r.sleepUntil == s.sleepUntil
    ensures r.numInst == s.numInst && r.insts == s.insts
  {
    if |s.stack| > 0 then
      var top := s.stack[|s.stack| - 1];
      s.(stack := s.stack[|s.stack| - 1 := top.(index := top.index + 1)])
    else s.(pc := s.pc + 1)
  }

  /** Moving a cursor forward keeps every open loop's body and cursor well formed. */
  lemma AdvanceKeepsWellFormed(s: VmState, maxDepth: nat)
    requires WellFormed(s, maxDepth)
    ensures WellFormed(Advance(s), maxDepth)
  {
  }

  /** `get_variable(name)` and, when it is not NULL, a store of v into that variable. */
  function Assign(t: Table, name: CString, v: U16): Table {
    LookupSpec(t, name);
    var (d, t1) := Lookup(t, name);
    if d.Some? then SetValue(t1, d.value, v) else t1
  }

  /** DECLARE(var, k): var := k clamped, creating var if needed. */
  function DeclareEffect(t: Table, inst: Instruction): Table {
    Assign(t, inst.arg1, Store16(inst.value))
  }

  /**
   * ADD/SUBTRACT(dst, a, b): both operands are resolved first (fallback 0),
   * then the destination is looked up, then it receives the clamped sum or
   * difference.
   */
  function ArithEffect(t: Table, inst: Instruction, add: bool): Table {
    var (v2, t1) := Resolve(t, inst.arg2, 0);
    var (v3, t2) := Resolve(t1, inst.arg3, 0);
    Assign(t2, inst.arg1, Store16(if add then v2 as int + v3 as int else v2 as int - v3 as int))
  }

  /**
   * READ(var, addr): the destination is looked up, then the address is
   * resolved, then the destination receives the word `mem` gives for it.
   * The destination is a pointer into the variable array: when resolving
   * the address creates a variable in a full array, `get_variable` moves the
   * array and frees the old one, and the store goes through a dangling
   * pointer. C leaves that step undefined, and so does the model (None).
   */
  function ReadEffect(t: Table, inst: Instruction, mem: U16 -> U16): Option<Table> {
    var (d, t1) := Lookup(t, inst.arg1);
    if d.None? then Some(t1)
    else
      LookupSpec(t, inst.arg1);
      ResolveSpec(t1, inst.arg2, 0);
      var (addr, t2) := Resolve(t1, inst.arg2, 0);
      if t2.capacity != t1.capacity then None
      else Some(SetValue(t2, d.value, mem(addr)))
  }

  /**
   * In a table with room for at least one variable (every process has
   * one), READ is undefined exactly when the destination exists (or could
   * be created) and the address names a variable that is not yet known in a
   * table that is full but still allowed to grow; otherwise the destination
   * ends up holding the word read at the resolved address.
   */
  lemma ReadEffectSpec(t: Table, inst: Instruction, mem: U16 -> U16)
    requires TableValid(t)
    ensures var (d, t1) := Lookup(t, inst.arg1);
      && (ReadEffect(t, inst, mem).None? <==>
            d.Some? && inst.arg2 != [] && !Known(t1, inst.arg2)
            && t1.capacity <= |t1.vars| && t1.capacity < MAX_VARIABLES_CAPACITY)
      && (d.None? ==> ReadEffect(t, inst, mem) == Some(t))
      && (ReadEffect(t, inst, mem).Some? && d.Some? ==>
            var (addr, t2) := Resolve(t1, inst.arg2, 0);
            ReadEffect(t, inst, mem).value.vars[d.value] == Variable(NameKey(inst.arg1), mem(addr)))
  {
    var (d, t1) := Lookup(t, inst.arg1);
    LookupSpec(t, inst.arg1);
    if d.Some? && inst.arg2 != [] {
      ResolveSpec(t1, inst.arg2, 0);
      LookupSpec(t1, inst.arg2);
    }
  }

  /**
   * A table holding only the destination, full at capacity 1, and an
   * address naming another variable: resolving the address moves the
   * array, and the READ store dangles.
   */
  lemma ReadIntoMovedTable(x: CString, y: CString, v: U16, mem: U16 -> U16)
    requires y != [] && NameKey(x) != NameKey(y)
    ensures ReadEffect(Table([Variable(NameKey(x), v)], 1), Instruction(Read, x, y, "", 0, 0, []), mem).None?
  {
    var t := Table([Variable(NameKey(x), v)], 1);
    ReadEffectSpec(t, Instruction(Read, x, y, "", 0, 0, []), mem);
    assert FindName(t.vars, NameKey(x)) == Some(0);
  }

  /** WRITE(addr, value): only the resolution of the address touches the process. */
  function WriteEffect(t: Table, inst: Instruction): Table {
    Resolve(t, inst.arg1, 0).1
  }

  /**
   * An assignment that finds or files its variable stores v there:
   * resolving the name afterwards reads v back, and every other variable
   * keeps its name and value.
   */
  lemma AssignThenResolve(t: Table, name: CString, v: U16)
    requires name != [] && Lookup(t, name).0.Some?
    ensures Resolve(Assign(t, name, v), name, 0).0 == v
    ensures var d := Lookup(t, name).0.value; var t' := Assign(t, name, v);
      && |t.vars| <= |t'.vars|
      && forall j :: 0 <= j < |t.vars| && j != d ==> t'.vars[j] == t.vars[j]
  {
    LookupSpec(t, name);
    var (d, t1) := Lookup(t, name);
    var t' := SetValue(t1, d.value, v);
    var key := NameKey(name);
    assert t'.vars[d.value].name == key;
    assert forall j :: 0 <= j < d.value ==> t'.vars[j].name != key by {
      forall j | 0 <= j < d.value
        ensures t'.vars[j].name != key
      {
        assert t'.vars[j] == t1.vars[j];
        if Known(t, name) {
          assert d == FindName(t.vars, key);
        } else {
          assert t1.vars[j] == t.vars[j];
        }
      }
    }
    var f := FindName(t'.vars, key);
    assert f == Some(d.value);
    ResolveSpec(t', name, 0);
    assert Assign(t, name, v) == t';
    forall j | 0 <= j < |t.vars| && j != d.value
      ensures t'.vars[j] == t.vars[j]
    {
      assert t1.vars[j] == t1.vars[..|t.vars|][j];
    }
  }

  /** DECLARE(var, k) followed by a read of var gives k as `CLAMP_UINT16` stores it. */
  lemma DeclareThenResolve(t: Table, inst: Instruction)
    requires inst.arg1 != [] && Lookup(t, inst.arg1).0.Some?
    ensures Resolve(DeclareEffect(t, inst), inst.arg1, 0).0 == Store16(inst.value)
  {
    AssignThenResolve(t, inst.arg1, Store16(inst.value));
  }

  /** The value of a known variable. */
  function ValueOf(t: Table, name: CString): U16
    requires Known(t, name)
  {
    t.vars[FindName(t.vars, NameKey(name)).value].value
  }

  /**
   * ADD or SUBTRACT over two known variables stores their clamped sum or
   * difference into the destination: reading it back gives that value.
   */
  lemma ArithThenResolve(t: Table, inst: Instruction, add: bool)
    requires inst.arg1 != [] && inst.arg2 != [] && inst.arg3 != []
    requires Known(t, inst.arg2) && Known(t, inst.arg3) && Lookup(t, inst.arg1).0.Some?
    ensures var (a, b) := (ValueOf(t, inst.arg2) as int, ValueOf(t, inst.arg3) as int);
      Resolve(ArithEffect(t, inst, add), inst.arg1, 0).0 == Store16(if add then a + b else a - b)
  {
    ResolveSpec(t, inst.arg2, 0);
    ResolveSpec(t, inst.arg3, 0);
    var a, b := ValueOf(t, inst.arg2) as int, ValueOf(t, inst.arg3) as int;
    AssignThenResolve(t, inst.arg1, Store16(if add then a + b else a - b));
  }

  /** WRITE never changes a variable: at most its address operand is filed, with value 0. */
  lemma WriteKeepsValues(t: Table, inst: Instruction)
    ensures var t' := WriteEffect(t, inst);
      && |t.vars| <= |t'.vars| <= |t.vars| + 1 && t'.vars[..|t.vars|] == t.vars
      && (inst.arg1 == [] || Known(t, inst.arg1) ==> t' == t)
  {
    ResolveSpec(t, inst.arg1, 0);
    if inst.arg1 != [] {
      LookupSpec(t, inst.arg1);
    }
  }

  /** The table effect of an instruction that does not touch control state. */
  predicate TableOnly(inst: Instruction) {
    inst.kind == Declare || inst.kind == Add || inst.kind == Subtract || inst.kind == Read || inst.kind == Write
  }

  /** PRINT and FOR both reach the FOR case of the switch. */
  predicate OpensLoop(inst: Instruction) {
    inst.kind == Print || inst.kind == For
  }

  /** The table effect of DECLARE, ADD, SUBTRACT, READ or WRITE; only READ can be undefined. */
  function TableEffect(t: Table, inst: Instruction, mem: U16 -> U16): (r: Option<Table>)
    requires TableOnly(inst)
    ensures inst.kind != Read ==> r.Some?
  {
    match inst.kind
    case Declare => Some(DeclareEffect(t, inst))
    case Add => Some(ArithEffect(t, inst, true))
    case Subtract => Some(ArithEffect(t, inst, false))
    case Read => ReadEffect(t, inst, mem)
    case Write => Some(WriteEffect(t, inst))
  }

  /**
   * The wake-up tick SLEEP(n) stores: `CPU_TICKS + n` computed in
   * `uint64_t`, so a negative n wraps to a tick far in the future.
   */
  function WakeTick(ticks: int, n: int): (r: U64)
    ensures 0 <= ticks + n < TWO_POW_64 ==> r == ticks + n
    ensures ticks + n < 0 && -TWO_POW_64 <= ticks + n ==> r == TWO_POW_64 + ticks + n
  {
    (ticks + n) % TWO_POW_64
  }

  /**
   * What the head of a step selects once the guard has passed: either an
   * exhausted loop with no repeats left is popped and the program counter
   * moves on (Pop), or an instruction runs on a state whose innermost loop
   * may have been restarted (Fetch).
   */
  datatype Fetched = Pop(after: VmState) | Fetch(from: VmState, inst: Instruction)

  /**
   * The instruction at the program counter at top level; inside a loop the
   * sub-instruction under the cursor, or sub-instruction 0 of a loop that
   * restarts with one repeat fewer.
   */
  function Select(s: VmState, maxDepth: nat): (f: Fetched)
    requires WellFormed(s, maxDepth) && !Halted(s)
    ensures f.Fetch? ==> WellFormed(f.from, maxDepth) && |f.from.stack| == |s.stack|
    ensures f.Fetch? ==> f.from == s.(stack := f.from.stack) && f.from.table.Some?
    ensures f.Pop? ==> WellFormed(f.after, maxDepth) && f.after.table == s.table
    ensures f.Pop? ==> f.after.numInst == s.numInst && f.after.insts == s.insts
  {
    if |s.stack| == 0 then Fetch(s, s.insts.value[s.pc])
    else
      var ctx := s.stack[|s.stack| - 1];
      if ctx.index < |ctx.body| then Fetch(s, ctx.body[ctx.index])
      else if ctx.remaining > 0 then
        var restarted := ctx.(remaining := ctx.remaining - 1, index := 0);
        Fetch(s.(stack := s.stack[|s.stack| - 1 := restarted]), ctx.body[0])
      else
        Pop(s.(stack := s.stack[..|s.stack| - 1], pc := s.pc + 1))
  }

  /**
   * `execute_instruction`: one step of the process at CPU tick `ticks`;
   * `mem` stands for `read_from_memory`. Halted states are left as they are;
   * otherwise the selected instruction runs, unless the step pops a loop.
   * None: the step is undefined in C (a READ through a dangling pointer).
   * A step is always defined for a process whose instructions hold no READ.
   */
  function Exec(s: VmState, ticks: int, mem: U16 -> U16, maxDepth: nat): (r: Option<VmState>)
    requires WellFormed(s, maxDepth)
    ensures r.Some? ==> WellFormed(r.value, maxDepth)
    ensures Halted(s) ==> r == Some(s)
    ensures r.Some? ==> r.value.numInst == s.numInst && r.value.insts == s.insts && (r.value.table.Some? <==> s.table.Some?)
    ensures ReadFree(s) ==> r.Some? && ReadFree(r.value)
    decreases maxDepth - |s.stack|, 2
  {
    if Halted(s) then Some(s)
    else match Select(s, maxDepth)
      case Pop(after) => SelectKeepsReadFree(s, maxDepth); Some(after)
      case Fetch(from, inst) => SelectKeepsReadFree(s, maxDepth); Run(from, inst, ticks, mem, maxDepth)
  }

  /**
   * The `switch` of `execute_instruction` on one instruction, followed by the
   * common advance. PRINT has no `break` and falls into FOR with its own
   * (empty) sub-instruction list.
   */
  function Run(s: VmState, inst: Instruction, ticks: int, mem: U16 -> U16, maxDepth: nat): (r: Option<VmState>)
    requires WellFormed(s, maxDepth) && s.table.Some?
    ensures r.Some? ==> WellFormed(r.value, maxDepth)
    ensures r.Some? ==> r.value.numInst == s.numInst && r.value.insts == s.insts && r.value.table.Some?
    ensures ReadFree(s) && ReadFreeInst(inst) ==> r.Some? && ReadFree(r.value)
    decreases maxDepth - |s.stack|, 1
  {
    var o := if OpensLoop(inst) then Open(s, inst, ticks, mem, maxDepth) else Simple(s, inst, ticks, mem);
    match o
    case None => None
    case Some(o') => AdvanceKeepsWellFormed(o', maxDepth); Some(Advance(o'))
  }

  /**
   * The FOR case, which PRINT reaches too with its own (empty) sub-list:
   * below the depth limit a loop with a body is pushed and one nested step
   * runs at once; a loop with no body is pushed and popped again, and at the
   * depth limit the loop is skipped; both move the program counter on.
   */
  function Open(s: VmState, inst: Instruction, ticks: int, mem: U16 -> U16, maxDepth: nat): (r: Option<VmState>)
    requires WellFormed(s, maxDepth) && s.table.Some? && OpensLoop(inst)
    ensures r.Some? ==> WellFormed(r.value, maxDepth)
    ensures r.Some? ==> r.value.numInst == s.numInst && r.value.insts == s.insts && r.value.table.Some?
    ensures ReadFree(s) && ReadFreeInst(inst) ==> r.Some? && ReadFree(r.value)
    decreases maxDepth - |s.stack|, 0
  {
    if |s.stack| < maxDepth && |inst.body| > 0 then
      PushKeepsReadFree(s, inst, maxDepth);
      Exec(Push(s, inst, maxDepth), ticks, mem, maxDepth)
    else Some(s.(pc := s.pc + 1))
  }

  /** The cases of the switch that neither open a loop nor move the program counter. */
  function Simple(s: VmState, inst: Instruction, ticks: int, mem: U16 -> U16): (r: Option<VmState>)
    requires s.table.Some? && !OpensLoop(inst)
    ensures r.Some? ==> r.value.pc == s.pc && r.value.stack == s.stack && r.value.numInst == s.numInst
    ensures r.Some? ==> r.value.insts == s.insts && r.value.table.Some?
    ensures r.None? <==> inst.kind == Read && ReadEffect(s.table.value, inst, mem).None?
    ensures inst.kind == Sleep ==> r == Some(s.(state := Sleeping, sleepUntil := WakeTick(ticks, inst.value)))
  {
    if inst.kind == Sleep then Some(s.(state := Sleeping, sleepUntil := WakeTick(ticks, inst.value)))
    else
      var t := TableEffect(s.table.value, inst, mem);
      if t.None? then None else Some(s.(table := t))
  }

  /** What Select hands on comes from a READ-free process: the fetched instruction and the state both stay READ-free. */
  lemma SelectKeepsReadFree(s: VmState, maxDepth: nat)
    requires WellFormed(s, maxDepth) && !Halted(s)
    ensures ReadFree(s) && Select(s, maxDepth).Pop? ==> ReadFree(Select(s, maxDepth).after)
    ensures ReadFree(s) && Select(s, maxDepth).Fetch? ==>
              ReadFree(Select(s, maxDepth).from) && ReadFreeInst(Select(s, maxDepth).inst)
  {
  }

  /** Pushing the body of a READ-free loop keeps the process READ-free. */
  lemma PushKeepsReadFree(s: VmState, inst: Instruction, maxDepth: nat)
    requires WellFormed(s, maxDepth) && |s.stack| < maxDepth && |inst.body| > 0
    ensures ReadFree(s) && ReadFreeInst(inst) ==> ReadFree(Push(s, inst, maxDepth))
  {
  }

  /** FOR opens a loop context: remaining = repeat_count - 1, cursor 0. */
  function Push(s: VmState, inst: Instruction, maxDepth: nat): (r: VmState)
    requires WellFormed(s, maxDepth) && |s.stack| < maxDepth && |inst.body| > 0
    ensures WellFormed(r, maxDepth) && |r.stack| == |s.stack| + 1
    ensures r.table == s.table && r.pc == s.pc && r.numInst == s.numInst && r.insts == s.insts
  {
    s.(stack := s.stack + [ForContext(inst.repeatCount, inst.repeatCount - 1, 0, inst.body)])
  }

  /** k consecutive steps at the same tick; None once a step is undefined. */
  function ExecN(s: VmState, k: nat, ticks: int, mem: U16 -> U16, maxDepth: nat): (r: Option<VmState>)
    requires WellFormed(s, maxDepth)
    ensures r.Some? ==> WellFormed(r.value, maxDepth)
    decreases k
  {
    if k == 0 then Some(s)
    else match Exec(s, ticks, mem, maxDepth)
      case None => None
      case Some(s1) => ExecN(s1, k - 1, ticks, mem, maxDepth)
  }

  /** The instruction a running top-level step would fetch. */
  predicate AtTopLevel(s: VmState) {
    !Halted(s) && |s.stack| == 0
  }

  function Current(s: VmState): Instruction
    requires AtTopLevel(s) && s.insts.Some? && s.numInst <= |s.insts.value|
  {
    s.insts.value[s.pc]
  }

  /** SLEEP parks the process and still advances the program counter. */
  lemma SleepAdvances(s: VmState, ticks: int, mem: U16 -> U16, maxDepth: nat)
    requires WellFormed(s, maxDepth) && AtTopLevel(s) && Current(s).kind == Sleep
    ensures Exec(s, ticks, mem, maxDepth)
         == Some(s.(state := Sleeping, sleepUntil := WakeTick(ticks, Current(s).value), pc := s.pc + 1))
  {
  }

  /** Inside a loop, SLEEP moves the loop cursor instead of the program counter. */
  lemma SleepInLoopMovesCursor(s: VmState, ticks: int, mem: U16 -> U16, maxDepth: nat)
    requires WellFormed(s, maxDepth) && !Halted(s) && |s.stack| > 0
    requires var top := s.stack[|s.stack| - 1]; top.index < |top.body| && top.body[top.index].kind == Sleep
    ensures var top := s.stack[|s.stack| - 1];
      Exec(s, ticks, mem, maxDepth)
        == Some(s.(state := Sleeping, sleepUntil := WakeTick(ticks, top.body[top.index].value),
                   stack := s.stack[|s.stack| - 1 := top.(index := top.index + 1)]))
  {
  }

  /** A top-level PRINT (empty sub-list) advances the program counter by two and changes nothing else. */
  lemma PrintAdvancesTwice(s: VmState, ticks: int, mem: U16 -> U16, maxDepth: nat)
    requires WellFormed(s, maxDepth) && AtTopLevel(s)
    requires Current(s).kind == Print && Current(s).body == []
    ensures Exec(s, ticks, mem, maxDepth) == Some(s.(pc := s.pc + 2))
  {
    ExecTopLevel(s, ticks, mem, maxDepth);
    assert Open(s, Current(s), ticks, mem, maxDepth) == Some(s.(pc := s.pc + 1));
  }

  /** FOR at the depth limit advances the program counter and then advances again. */
  lemma ForAtDepthLimit(s: VmState, inst: Instruction, ticks: int, mem: U16 -> U16, maxDepth: nat)
    requires WellFormed(s, maxDepth) && s.table.Some? && |s.stack| == maxDepth
    requires OpensLoop(inst)
    ensures Run(s, inst, ticks, mem, maxDepth) == Some(Advance(s.(pc := s.pc + 1)))
  {
  }

  /** An exhausted loop with no repeats left is popped; the program counter moves on; nothing runs. */
  lemma LoopExit(s: VmState, ticks: int, mem: U16 -> U16, maxDepth: nat)
    requires WellFormed(s, maxDepth) && !Halted(s) && |s.stack| > 0
    requires var top := s.stack[|s.stack| - 1]; top.index >= |top.body| && top.remaining <= 0
    ensures Exec(s, ticks, mem, maxDepth) == Some(s.(stack := s.stack[..|s.stack| - 1], pc := s.pc + 1))
  {
  }

  /** The innermost open loop. */
  function Top(s: VmState): ForContext
    requires |s.stack| > 0
  {
    s.stack[|s.stack| - 1]
  }

  /** A step at top level runs the instruction at the program counter. */
  lemma ExecTopLevel(s: VmState, ticks: int, mem: U16 -> U16, maxDepth: nat)
    requires WellFormed(s, maxDepth) && AtTopLevel(s)
    ensures Exec(s, ticks, mem, maxDepth) == Run(s, Current(s), ticks, mem, maxDepth)
  {
  }

  /** A step inside a loop whose cursor is within the body runs the sub-instruction under the cursor. */
  lemma ExecInLoop(s: VmState, ticks: int, mem: U16 -> U16, maxDepth: nat)
    requires WellFormed(s, maxDepth) && !Halted(s) && |s.stack| > 0
    requires Top(s).index < |Top(s).body|
    ensures Exec(s, ticks, mem, maxDepth) == Run(s, Top(s).body[Top(s).index], ticks, mem, maxDepth)
  {
  }

  /** An exhausted loop with repeats left restarts at cursor 0 and runs its first sub-instruction. */
  lemma ExecRestart(s: VmState, ticks: int, mem: U16 -> U16, maxDepth: nat)
    requires WellFormed(s, maxDepth) && !Halted(s) && |s.stack| > 0
    requires Top(s).index >= |Top(s).body| && Top(s).remaining > 0
    ensures var restarted := Top(s).(remaining := Top(s).remaining - 1, index := 0);
      Exec(s, ticks, mem, maxDepth)
        == Run(s.(stack := s.stack[|s.stack| - 1 := restarted]), Top(s).body[0], ticks, mem, maxDepth)
  {
  }

  /** A table-only instruction applies its table effect, then advances; an undefined effect leaves the step undefined. */
  lemma RunTableOnly(s: VmState, inst: Instruction, ticks: int, mem: U16 -> U16, maxDepth: nat)
    requires WellFormed(s, maxDepth) && s.table.Some? && TableOnly(inst)
    ensures var t := TableEffect(s.table.value, inst, mem);
      Run(s, inst, ticks, mem, maxDepth) == if t.None? then None else Some(Advance(s.(table := t)))
  {
  }

  /** Below the depth limit, a FOR with a body pushes a context, runs one nested step, then advances. */
  lemma RunOpensLoop(s: VmState, inst: Instruction, ticks: int, mem: U16 -> U16, maxDepth: nat)
    requires WellFormed(s, maxDepth) && s.table.Some? && OpensLoop(inst)
    requires |s.stack| < maxDepth && |inst.body| > 0
    ensures var e := Exec(Push(s, inst, maxDepth), ticks, mem, maxDepth);
      Run(s, inst, ticks, mem, maxDepth) == if e.None? then None else Some(Advance(e.value))
  {
  }

  /** The nested step of a freshly pushed loop whose first sub-instruction is table-only. */
  lemma PushedFirstStep(s: VmState, f: Instruction, ticks: int, mem: U16 -> U16, maxDepth: nat)
    requires WellFormed(s, maxDepth) && AtTopLevel(s) && maxDepth >= 1
    requires |f.body| > 0 && TableOnly(f.body[0])
    ensures var t := TableEffect(s.table.value, f.body[0], mem);
      Exec(Push(s, f, maxDepth), ticks, mem, maxDepth)
        == if t.None? then None
           else Some(s.(table := t, stack := [ForContext(f.repeatCount, f.repeatCount - 1, 1, f.body)]))
  {
    var pushed := Push(s, f, maxDepth);
    assert pushed.stack == [ForContext(f.repeatCount, f.repeatCount - 1, 0, f.body)];
    ExecInLoop(pushed, ticks, mem, maxDepth);
    RunTableOnly(pushed, f.body[0], ticks, mem, maxDepth);
    AdvanceSingle(pushed.(table := TableEffect(s.table.value, f.body[0], mem)));
  }

  /**
   * The first pass of a FOR runs sub-instruction 0 through the nested step,
   * which already moves the new cursor to 1, and the FOR's own advance moves
   * it to 2: sub-instruction 1 is skipped on the first pass.
   */
  lemma ForSkipsSecond(s: VmState, ticks: int, mem: U16 -> U16, maxDepth: nat)
    requires WellFormed(s, maxDepth) && AtTopLevel(s) && maxDepth >= 1
    requires Current(s).kind == For && |Current(s).body| > 0 && TableOnly(Current(s).body[0])
    ensures var f := Current(s);
      var t := TableEffect(s.table.value, f.body[0], mem);
      Exec(s, ticks, mem, maxDepth)
        == if t.None? then None
           else Some(s.(table := t, stack := [ForContext(f.repeatCount, f.repeatCount - 1, 2, f.body)]))
  {
    var f := Current(s);
    ExecTopLevel(s, ticks, mem, maxDepth);
    RunOpensLoop(s, f, ticks, mem, maxDepth);
    PushedFirstStep(s, f, ticks, mem, maxDepth);
    var t := TableEffect(s.table.value, f.body[0], mem);
    if t.Some? {
      AdvanceSingle(s.(table := t, stack := [ForContext(f.repeatCount, f.repeatCount - 1, 1, f.body)]));
    }
  }

  /** Below the depth limit, PRINT or a FOR with no body pushes and pops at once: the program counter moves, then the common advance. */
  lemma RunEmptyLoop(s: VmState, inst: Instruction, ticks: int, mem: U16 -> U16, maxDepth: nat)
    requires WellFormed(s, maxDepth) && s.table.Some? && OpensLoop(inst)
    requires |s.stack| < maxDepth && inst.body == []
    ensures Run(s, inst, ticks, mem, maxDepth) == Some(Advance(s.(pc := s.pc + 1)))
  {
  }

  /** PRINT with an empty sub-list: what a PRINT instruction parses to. */
  predicate PlainPrint(inst: Instruction) {
    inst.kind == Print && inst.body == []
  }

  /**
   * A single open loop whose only sub-instruction is a plain PRINT that has
   * already run, with `rem` repeats left (a negative count of remaining
   * repeats counts as none), and room in the instruction array for the
   * program counter to move rem more places.
   */
  ghost predicate PrintLoop(s: VmState, rem: nat, maxDepth: nat) {
    && WellFormed(s, maxDepth) && 1 < maxDepth
    && s.insts.Some? && s.table.Some? && 0 <= s.pc && s.pc + rem < s.numInst
    && |s.stack| == 1 && |s.stack[0].body| == 1 && PlainPrint(s.stack[0].body[0])
    && s.stack[0].index >= 1
    && (s.stack[0].remaining == rem || (rem == 0 && s.stack[0].remaining < 0))
  }

  /**
   * One restart of such a loop: PRINT runs again, and since it falls into
   * FOR with an empty list it moves the program counter while the loop is
   * still open; the cursor is past the body again.
   */
  lemma PrintRestart(s: VmState, rem: nat, ticks: int, mem: U16 -> U16, maxDepth: nat) returns (s1: VmState)
    requires PrintLoop(s, rem, maxDepth) && rem > 0
    ensures Some(s1) == Exec(s, ticks, mem, maxDepth) && PrintLoop(s1, rem - 1, maxDepth)
    ensures s1 == s.(pc := s.pc + 1, stack := [Top(s).(remaining := rem - 1, index := 1)])
  {
    var top := Top(s);
    var restarted := s.(stack := [top.(remaining := top.remaining - 1, index := 0)]);
    ExecRestart(s, ticks, mem, maxDepth);
    assert restarted == s.(stack := s.stack[|s.stack| - 1 := top.(remaining := top.remaining - 1, index := 0)]);
    RunEmptyLoop(restarted, top.body[0], ticks, mem, maxDepth);
    AdvanceSingle(restarted.(pc := s.pc + 1));
    s1 := s.(pc := s.pc + 1, stack := [top.(remaining := rem - 1, index := 1)]);
  }

  /** k + 1 steps are one step followed by k; once a step is undefined, so are all later ones. */
  lemma ExecNFirst(s: VmState, k: nat, ticks: int, mem: U16 -> U16, maxDepth: nat)
    requires WellFormed(s, maxDepth)
    ensures Exec(s, ticks, mem, maxDepth).Some? ==>
              ExecN(s, k + 1, ticks, mem, maxDepth) == ExecN(Exec(s, ticks, mem, maxDepth).value, k, ticks, mem, maxDepth)
    ensures Exec(s, ticks, mem, maxDepth).None? ==> ExecN(s, k + 1, ticks, mem, maxDepth).None?
  {
  }

  /** With no repeats left, one step pops the loop. */
  lemma PrintLoopExit(s: VmState, ticks: int, mem: U16 -> U16, maxDepth: nat)
    requires PrintLoop(s, 0, maxDepth)
    ensures ExecN(s, 1, ticks, mem, maxDepth) == Some(s.(pc := s.pc + 1, stack := []))
  {
    LoopExit(s, ticks, mem, maxDepth);
  }

  /** A restart, stated as the step it saves. */
  lemma PrintLoopStep(s: VmState, rem: nat, ticks: int, mem: U16 -> U16, maxDepth: nat) returns (s1: VmState)
    requires PrintLoop(s, rem, maxDepth) && rem > 0
    ensures PrintLoop(s1, rem - 1, maxDepth)
    ensures s1.(pc := s1.pc + rem, stack := []) == s.(pc := s.pc + rem + 1, stack := [])
    ensures ExecN(s, rem + 1, ticks, mem, maxDepth) == ExecN(s1, rem, ticks, mem, maxDepth)
  {
    s1 := PrintRestart(s, rem, ticks, mem, maxDepth);
    ExecNFirst(s, rem, ticks, mem, maxDepth);
  }

  /** rem + 1 steps run the PRINT rem more times and pop the loop: the program counter moves rem + 1 places. */
  lemma {:induction false} PrintLoopDrains(s: VmState, rem: nat, ticks: int, mem: U16 -> U16, maxDepth: nat)
    requires PrintLoop(s, rem, maxDepth)
    ensures ExecN(s, rem + 1, ticks, mem, maxDepth) == Some(s.(pc := s.pc + rem + 1, stack := []))
    decreases rem
  {
    if rem == 0 {
      PrintLoopExit(s, ticks, mem, maxDepth);
    } else {
      var s1 := PrintLoopStep(s, rem, ticks, mem, maxDepth);
      PrintLoopDrains(s1, rem - 1, ticks, mem, maxDepth);
    }
  }

  /** With one loop open, advancing moves its cursor. */
  lemma AdvanceSingle(s: VmState)
    requires |s.stack| == 1
    ensures Advance(s) == s.(stack := [s.stack[0].(index := s.stack[0].index + 1)])
  {
  }

  /** The nested step of a freshly pushed loop whose first sub-instruction is a plain PRINT. */
  lemma PushedPrintStep(s: VmState, f: Instruction, ticks: int, mem: U16 -> U16, maxDepth: nat)
    requires WellFormed(s, maxDepth) && AtTopLevel(s) && maxDepth > 1
    requires |f.body| > 0 && PlainPrint(f.body[0])
    ensures Exec(Push(s, f, maxDepth), ticks, mem, maxDepth)
         == Some(s.(pc := s.pc + 1, stack := [ForContext(f.repeatCount, f.repeatCount - 1, 1, f.body)]))
  {
    var pushed := Push(s, f, maxDepth);
    assert pushed.stack == [ForContext(f.repeatCount, f.repeatCount - 1, 0, f.body)];
    ExecInLoop(pushed, ticks, mem, maxDepth);
    RunEmptyLoop(pushed, f.body[0], ticks, mem, maxDepth);
    AdvanceSingle(pushed.(pc := s.pc + 1));
  }

  /** The first pass of a FOR whose body is one plain PRINT: the program counter has already moved, the cursor is at 2. */
  lemma ForPrintFirstPass(s: VmState, ticks: int, mem: U16 -> U16, maxDepth: nat)
    requires WellFormed(s, maxDepth) && AtTopLevel(s) && maxDepth > 1
    requires Current(s).kind == For && |Current(s).body| == 1 && PlainPrint(Current(s).body[0])
    ensures var f := Current(s);
      Exec(s, ticks, mem, maxDepth) == Some(s.(pc := s.pc + 1, stack := [ForContext(f.repeatCount, f.repeatCount - 1, 2, f.body)]))
  {
    var f := Current(s);
    var inner := s.(pc := s.pc + 1, stack := [ForContext(f.repeatCount, f.repeatCount - 1, 1, f.body)]);
    PushedPrintStep(s, f, ticks, mem, maxDepth);
    AdvanceSingle(inner);
    RunOpensLoop(s, f, ticks, mem, maxDepth);
    ExecTopLevel(s, ticks, mem, maxDepth);
  }

  /**
   * A top-level FOR whose body is one PRINT takes max(1, repeat_count) + 1
   * steps to finish, and because every PRINT also moves the program counter
   * the process resumes max(1, repeat_count) + 1 instructions further on:
   * the max(1, repeat_count) instructions after the FOR are never run.
   */
  lemma ForPrintSkipsFollowing(s: VmState, ticks: int, mem: U16 -> U16, maxDepth: nat)
    requires WellFormed(s, maxDepth) && AtTopLevel(s) && maxDepth > 1
    requires Current(s).kind == For && |Current(s).body| == 1 && PlainPrint(Current(s).body[0])
    requires s.pc + (if Current(s).repeatCount >= 1 then Current(s).repeatCount else 1) < s.numInst
    ensures var n := if Current(s).repeatCount >= 1 then Current(s).repeatCount else 1;
      ExecN(s, n + 1, ticks, mem, maxDepth) == Some(s.(pc := s.pc + n + 1))
  {
    var f := Current(s);
    var n := if f.repeatCount >= 1 then f.repeatCount else 1;
    ForPrintFirstPass(s, ticks, mem, maxDepth);
    var s1 := Exec(s, ticks, mem, maxDepth).value;
    ExecNFirst(s, n, ticks, mem, maxDepth);
    assert PrintLoop(s1, n - 1, maxDepth);
    PrintLoopDrains(s1, n - 1, ticks, mem, maxDepth);
  }
}
