/**
 * barebones.c: a string-driven interpreter over a fixed table of 64
 * variables holding `unsigned short` values. `barebones` copies an
 * instruction into a 256-byte buffer, trims it and dispatches on its
 * prefix: DECLARE, ADD, SUBTRACT (looked for under the prefix "S UBTRACT"),
 * PRINT, SLEEP and FOR, whose body is split on top-level commas and run
 * recursively. What `printf` writes and what `usleep` is asked for are
 * kept as a trace of events. The `sscanf` calls are the directives of
 * CText; a conversion that fails leaves its variable uninitialised, which
 * the model reports as undefined (None), as it does a token that
 * overflows its buffer, an `int` overflow and a NULL from `get_var` that
 * is dereferenced.
 */
module Barebones {
  import opened Wrappers
  import opened CText

  const MAX_VARIABLES: nat := 64
  const MAX_INSTRUCTIONS: nat := 16
  /** `sizeof(Variable.name) - 1`, also the room of the `var[16]` buffers. */
  const NAME_MAX: nat := 15
  /** `sizeof(safe_instr) - 1`. */
  const INSTR_MAX: nat := 255
  /** `sizeof(inside) - 1` and `sizeof(msg) - 1`. */
  const TEXT_MAX: nat := 127
  /** The width of each `%31[^,]` operand directive. */
  const OPERAND_WIDTH: nat := 31
  /** Values are `unsigned short`: arithmetic is modulo 2^16. */
  const WORD: nat := 0x1_0000

  type Word = x: int | 0 <= x < 0x1_0000

  /** An entry of the `vars` table. */
  datatype Variable = Variable(name: string, value: Word)

  /** What the interpreter does to the outside world. */
  datatype Event =
    | Printed(text: string) // a `printf`, with its newline
    | Slept(micros: nat)    // a `usleep` with this `useconds_t` argument

  /** The table `vars[0..var_count)` and the events so far. */
  datatype Machine = Machine(vars: seq<Variable>, trace: seq<Event>)

  predicate FitsInt(x: int) {
    -TWO_POW_31 <= x < TWO_POW_31
  }

  predicate HasPrefix(s: string, p: string) {
    |p| <= |s| && s[..|p|] == p
  }

  /** A text that starts with p has prefix p. */
  lemma PrefixOfJoin(p: string, t: string)
    ensures HasPrefix(p + t, p)
  {
    assert (p + t)[..|p|] == p;
  }

  // ---------------------------------------------------------------- trim

  /** The characters `trim` strips. */
  predicate Blank(c: char) {
    c == ' ' || c == '\t'
  }

  function LeadingBlanks(s: string): (n: nat)
    ensures n <= |s| && (forall k :: 0 <= k < n ==> Blank(s[k])) && (n < |s| ==> !Blank(s[n]))
  {
    if s != [] && Blank(s[0]) then 1 + LeadingBlanks(s[1..]) else 0
  }

  function TrailingBlanks(s: string): (n: nat)
    ensures n <= |s| && (forall k :: |s| - n <= k < |s| ==> Blank(s[k])) && (n < |s| ==> !Blank(s[|s| - n - 1]))
  {
    if s != [] && Blank(s[|s| - 1]) then 1 + TrailingBlanks(s[..|s| - 1]) else 0
  }

  /** `trim`: the string without its leading and trailing spaces and tabs. */
  function Trim(s: string): (t: string)
    ensures |t| <= |s|
  {
    var r := s[LeadingBlanks(s)..];
    r[..|r| - TrailingBlanks(r)]
  }

  /**
   * Trim is the infix s[a..b] with only blanks before a and from b on, and
   * none at either end of it (all of s is blank when the infix is empty).
   */
  lemma TrimIs(s: string, a: nat, b: nat)
    requires a <= b <= |s|
    requires forall k :: 0 <= k < a ==> Blank(s[k])
    requires forall k :: b <= k < |s| ==> Blank(s[k])
    requires a < b ==> !Blank(s[a]) && !Blank(s[b - 1])
    requires a == b ==> b == |s|
    ensures Trim(s) == s[a..b]
  {
    LeadingBlanksIs(s, a);
    var r := s[a..];
    var c := |s| - b;
    forall k | |r| - c <= k < |r|
      ensures Blank(r[k])
    {
      assert r[k] == s[a + k];
    }
    assert c < |r| ==> r[|r| - c - 1] == s[b - 1];
    TrailingBlanksIs(r, c);
    assert r[..|r| - c] == s[a..b];
  }

  /** LeadingBlanks is the one count with blanks before it and none at it. */
  lemma LeadingBlanksIs(s: string, a: nat)
    requires a <= |s| && (forall k :: 0 <= k < a ==> Blank(s[k])) && (a < |s| ==> !Blank(s[a]))
    ensures LeadingBlanks(s) == a
  {
    var n := LeadingBlanks(s);
    assert n < |s| ==> !Blank(s[n]);
  }

  /** TrailingBlanks is the one count with blanks after it and none just before. */
  lemma TrailingBlanksIs(r: string, c: nat)
    requires c <= |r| && (forall k :: |r| - c <= k < |r| ==> Blank(r[k])) && (c < |r| ==> !Blank(r[|r| - c - 1]))
    ensures TrailingBlanks(r) == c
  {
    var n := TrailingBlanks(r);
    assert n < |r| ==> !Blank(r[|r| - n - 1]);
  }

  /** Trimming twice is trimming once. */
  lemma TrimIdempotent(s: string)
    ensures Trim(Trim(s)) == Trim(s)
  {
    var t := Trim(s);
    if t != [] {
      var r := s[LeadingBlanks(s)..];
      assert t[0] == r[0] && t[|t| - 1] == r[|r| - TrailingBlanks(r) - 1];
    }
    TrimIs(t, 0, |t|);
  }

  /**
   * `trim` on a buffer holding a string of n characters: the start index
   * moves past the leading blanks, and the trailing blanks are overwritten
   * with NUL; the characters left between them are Trim of the string.
   */
  method TrimInPlace(buf: array<char>, n: nat) returns (start: nat, len: nat)
    requires n <= buf.Length
    modifies buf
    ensures start + len <= n && buf[start..start + len] == Trim(old(buf[..n]))
    ensures forall k :: 0 <= k < start + len ==> buf[k] == old(buf[k])
    ensures forall k :: start + len <= k < n ==> buf[k] == '\0'
    ensures forall k :: n <= k < buf.Length ==> buf[k] == old(buf[k])
  {
    ghost var s := buf[..n];
    start := 0;
    while start < n && Blank(buf[start])
      invariant start <= n && forall k :: 0 <= k < start ==> Blank(s[k])
    {
      start := start + 1;
    }
    assert start < n ==> !Blank(s[start]);
    var stop := n;
    while stop > start + 1 && Blank(buf[stop - 1])
      invariant start <= stop <= n && (start < n ==> start < stop)
      invariant forall k :: 0 <= k < stop ==> buf[k] == s[k]
      invariant forall k :: stop <= k < n ==> buf[k] == '\0' && Blank(s[k])
      invariant forall k :: n <= k < buf.Length ==> buf[k] == old(buf[k])
    {
      buf[stop - 1] := '\0';
      stop := stop - 1;
    }
    assert start < stop ==> !Blank(s[stop - 1]);
    TrimIs(s, start, stop);
    assert buf[start..stop] == s[start..stop];
    len := stop - start;
  }

  // ------------------------------------------------------------- get_var

  /** The first entry named name (`strcmp` == 0), if any. */
  function Lookup(vars: seq<Variable>, name: string): (r: Option<nat>)
    ensures r.Some? ==> r.value < |vars| && vars[r.value].name == name
    ensures r.Some? ==> forall k :: 0 <= k < r.value ==> vars[k].name != name
    ensures r.None? <==> forall k :: 0 <= k < |vars| ==> vars[k].name != name
  {
    if vars == [] then None
    else if vars[0].name == name then Some(0)
    else match Lookup(vars[1..], name)
      case None => None
      case Some(k) => Some(k + 1)
  }

  /** `strncpy` into `name[16]` followed by the terminator: at most 15 characters kept. */
  function Truncate(name: string): (t: string)
    ensures |t| <= NAME_MAX && t <= name
  {
    if |name| > NAME_MAX then name[..NAME_MAX] else name
  }

  /**
   * `get_var(name)`: the table after the call and the slot of the returned
   * pointer, or None for NULL (an unknown name with the table full).
   */
  function VarSlot(vars: seq<Variable>, name: string): (r: Option<(seq<Variable>, nat)>)
    ensures r.Some? ==> vars <= r.value.0 && r.value.1 < |r.value.0|
  {
    match Lookup(vars, name)
    case Some(i) => Some((vars, i))
    case None =>
      if |vars| < MAX_VARIABLES then Some((vars + [Variable(Truncate(name), 0)], |vars|)) else None
  }

  /** A name already in the table gets its slot back, and the table is unchanged. */
  lemma KnownNameFound(vars: seq<Variable>, name: string, k: nat)
    requires k < |vars| && vars[k].name == name && forall j :: 0 <= j < k ==> vars[j].name != name
    ensures VarSlot(vars, name) == Some((vars, k))
  {
  }

  /**
   * A name of at most 15 characters, once looked up, is found again at the
   * same slot: `get_var` is idempotent on it.
   */
  lemma GetVarIdempotent(vars: seq<Variable>, name: string)
    requires |name| <= NAME_MAX && VarSlot(vars, name).Some?
    ensures var (vs, i) := VarSlot(vars, name).value; VarSlot(vs, name) == Some((vs, i))
  {
    var (vs, i) := VarSlot(vars, name).value;
    if Lookup(vars, name).None? {
      assert vs[i].name == name;
      KnownNameFound(vs, name, i);
    }
  }

  /**
   * A name longer than 15 characters is stored truncated, so `strcmp`
   * never matches it: while every stored name fits, each lookup of it adds
   * a fresh entry holding 0.
   */
  lemma LongNameNeverFound(vars: seq<Variable>, name: string)
    requires |name| > NAME_MAX && |vars| < MAX_VARIABLES
    requires forall k :: 0 <= k < |vars| ==> |vars[k].name| <= NAME_MAX
    ensures VarSlot(vars, name) == Some((vars + [Variable(name[..NAME_MAX], 0)], |vars|))
  {
  }

  /** With 64 entries and an unknown name, `get_var` returns NULL. */
  lemma FullTableRefuses(vars: seq<Variable>, name: string)
    requires |vars| >= MAX_VARIABLES && forall k :: 0 <= k < |vars| ==> vars[k].name != name
    ensures VarSlot(vars, name).None?
  {
  }

  /** An assignment through a pointer from `get_var`: the value converted to `unsigned short`. */
  function Assign(vars: seq<Variable>, i: nat, v: int): (r: seq<Variable>)
    requires i < |vars|
    ensures |r| == |vars| && r[i].name == vars[i].name && r[i].value == v % WORD
    ensures forall k :: 0 <= k < |vars| && k != i ==> r[k] == vars[k]
  {
    vars[i := vars[i].(value := v % WORD)]
  }

  // ------------------------------------------------------- the instructions

  /** `strrchr`: the index of the last c in s, or None (NULL). */
  function FindLast(s: string, c: char): (r: Option<nat>)
    ensures r.Some? ==> r.value < |s| && s[r.value] == c && forall k :: r.value < k < |s| ==> s[k] != c
    ensures r.None? <==> forall k :: 0 <= k < |s| ==> s[k] != c
  {
    if s == [] then None
    else if s[|s| - 1] == c then Some(|s| - 1)
    else FindLast(s[..|s| - 1], c)
  }

  /** The `strncpy` of the instruction into `safe_instr[256]`: up to its terminator, at most 255 characters. */
  function SafeCopy(instr: string): (s: string)
    ensures |s| <= |instr| && |s| <= INSTR_MAX
  {
    var n := match Find(instr, '\0') case None => |instr| case Some(k) => k;
    instr[..if n < INSTR_MAX then n else INSTR_MAX]
  }

  /** A string printed into a buffer of `TEXT_MAX + 1` bytes by `snprintf`. */
  function Clip(s: string): (r: string)
    ensures |r| <= TEXT_MAX && r <= s
  {
    if |s| > TEXT_MAX then s[..TEXT_MAX] else s
  }

  /**
   * `sscanf(instr, "DECLARE(%[^,], %d)", var, &val)` with both conversions
   * made: the name as read, and the number. None when a conversion fails,
   * the name overflows `var[16]`, or the number is not an `int`.
   */
  function ParseDeclare(s: string): (r: Option<(string, int)>)
    requires HasPrefix(s, "DECLARE(")
    ensures r.Some? ==> |r.value.0| <= NAME_MAX && FitsInt(r.value.1)
  {
    match ScanSet(s, 8, |s|, {','})
    case None => None
    case Some((name, j)) =>
      if |name| > NAME_MAX || !LiteralAt(s, j, ',') then None
      else match ScanInt(s, SkipSpaces(s, j + 1))
        case None => None
        case Some((v, _)) => if FitsInt(v) then Some((name, v)) else None
  }

  /** DECLARE: the named variable (added if new) takes the number modulo 2^16. */
  function DeclareStep(m: Machine, s: string): Option<Machine>
    requires HasPrefix(s, "DECLARE(")
  {
    match ParseDeclare(s)
    case None => None
    case Some((name, v)) =>
      match VarSlot(m.vars, Trim(name))
      case None => None
      case Some((vs, i)) => Some(m.(vars := Assign(vs, i, v)))
  }

  /**
   * The three `%31[^,]` operands of ADD (`skipLead` false) or SUBTRACT
   * (`skipLead` true, a leading white-space directive), each of them after
   * a comma and white space, or None when fewer than three are converted.
   */
  function ScanOperands(t: string, skipLead: bool): Option<(string, string, string)> {
    var i := if skipLead then SkipSpaces(t, 0) else 0;
    match OperandThenComma(t, i)
    case None => None
    case Some((x, j1)) =>
      match OperandThenComma(t, SkipSpaces(t, j1))
      case None => None
      case Some((y, j2)) =>
        match ScanSet(t, SkipSpaces(t, j2), OPERAND_WIDTH, {','})
        case None => None
        case Some((z, _)) => Some((x, y, z))
  }

  /** One `%31[^,]` conversion at i and the ',' after it: the operand and the index past the ','. */
  function OperandThenComma(t: string, i: nat): (r: Option<(string, nat)>)
    requires i <= |t|
    ensures r.Some? ==> r.value.1 <= |t|
  {
    match ScanSet(t, i, OPERAND_WIDTH, {','})
    case None => None
    case Some((x, j)) => if LiteralAt(t, j, ',') then Some((x, j + 1)) else None
  }

  /** The operands of ADD or SUBTRACT, trimmed, or the message printed instead. */
  datatype Operands = Malformed(message: string) | Operands(res: string, op1: string, op2: string)

  /**
   * The argument text of ADD or SUBTRACT: from after the first '(' to the
   * last ')', or None when either is missing or nothing lies between them.
   */
  function ArgumentsText(s: string): (r: Option<string>)
    ensures r.Some? ==> |r.value| < |s|
  {
    match Find(s, '(')
    case None => None
    case Some(a) =>
      match FindLast(s, ')')
      case None => None
      case Some(e) => if e <= a + 1 then None else Some(s[a + 1..e])
  }

  /**
   * The operands of ADD or SUBTRACT: the argument text is refused when
   * ArgumentsText finds none. ADD reads it with a space put in front;
   * SUBTRACT reads it as it is.
   */
  function ArithOperands(s: string, subtract: bool): Operands {
    match ArgumentsText(s)
    case None => Malformed(if subtract then "SUBTRACT instruction.\n" else "ADD instruction.\n ")
    case Some(args) =>
      match ScanOperands(Clip(if subtract then args else " " + args), subtract)
      case None => Malformed(if subtract then "SUBTRACT instruction.\n" else "ADD instruction.\n")
      case Some((x, y, z)) => Operands(Trim(x), Trim(y), Trim(z))
  }

  /**
   * The table after `get_var` on the result, then on each operand (a
   * number among them is a variable named by its digits), with the result
   * given the sum or the difference modulo 2^16; None when a `get_var`
   * gives NULL.
   */
  function ApplyArith(vars: seq<Variable>, x: string, y: string, z: string, subtract: bool): Option<seq<Variable>> {
    match Bind3(vars, x, y, z)
    case None => None
    case Some((vs, r, a, b)) =>
      Some(Assign(vs, r, if subtract then vs[a].value - vs[b].value else vs[a].value + vs[b].value))
  }

  /** `get_var` on x, then y, then z: the table after them and the three slots. */
  function Bind3(vars: seq<Variable>, x: string, y: string, z: string): (r: Option<(seq<Variable>, nat, nat, nat)>)
    ensures r.Some? ==> var (vs, i, j, k) := r.value; vars <= vs && i < |vs| && j < |vs| && k < |vs|
  {
    match VarSlot(vars, x)
    case None => None
    case Some((v1, r)) =>
      match VarSlot(v1, y)
      case None => None
      case Some((v2, a)) =>
        match VarSlot(v2, z)
        case None => None
        case Some((v3, b)) => Some((v3, r, a, b))
  }

  /** Once the three slots are bound, ADD or SUBTRACT stores the sum or difference of the last two into the first. */
  lemma ApplyArithOfSlots(vars: seq<Variable>, x: string, y: string, z: string, subtract: bool,
                          vs: seq<Variable>, r: nat, a: nat, b: nat)
    requires Bind3(vars, x, y, z) == Some((vs, r, a, b))
    ensures r < |vs| && a < |vs| && b < |vs|
    ensures ApplyArith(vars, x, y, z, subtract) == Some(Assign(vs, r, if subtract then vs[a].value - vs[b].value else vs[a].value + vs[b].value))
  {
    var t := Bind3(vars, x, y, z).value;
    assert t.0 == vs && t.1 == r && t.2 == a && t.3 == b;
  }

  /** ADD and SUBTRACT: the message of a malformed instruction, or ApplyArith. */
  function ArithStep(m: Machine, s: string, subtract: bool): Option<Machine> {
    OperandsStep(m, ArithOperands(s, subtract), subtract)
  }

  /** The message of a malformed instruction, or ApplyArith on the operand names. */
  function OperandsStep(m: Machine, ops: Operands, subtract: bool): Option<Machine> {
    match ops
    case Malformed(text) => Some(m.(trace := m.trace + [Printed(text)]))
    case Operands(x, y, z) =>
      match ApplyArith(m.vars, x, y, z, subtract)
      case None => None
      case Some(vs) => Some(m.(vars := vs))
  }

  /** What the `sscanf` calls of PRINT convert. */
  datatype PrintArgs =
    | Unconverted                       // a conversion failed or overflowed its buffer
    | Message(msg: string)              // no '+' in the instruction
    | MessageAndVar(msg: string, name: string)

  /**
   * PRINT: the message between `PRINT("` and the next '"'; when the
   * instruction holds a '+', it must be followed by `"+` and a variable
   * name up to ')'.
   */
  function ParsePrint(s: string): (r: PrintArgs)
    requires HasPrefix(s, "PRINT(")
    ensures r.Message? ==> |r.msg| <= TEXT_MAX && '+' !in s
    ensures r.MessageAndVar? ==> |r.msg| <= TEXT_MAX && |r.name| <= NAME_MAX && '+' in s
  {
    if !LiteralAt(s, 6, '"') then Unconverted
    else match ScanSet(s, 7, |s|, {'"'})
      case None => Unconverted
      case Some((msg, j)) =>
        if |msg| > TEXT_MAX then Unconverted
        else if '+' !in s then Message(msg)
        else if !LiteralAt(s, j, '"') || !LiteralAt(s, j + 1, '+') then Unconverted
        else match ScanSet(s, j + 2, |s|, {')'})
          case None => Unconverted
          case Some((name, _)) => if |name| > NAME_MAX then Unconverted else MessageAndVar(msg, name)
  }

  /** PRINT: ">> " and the message, then the variable's value when one is named. */
  function PrintStep(m: Machine, s: string): Option<Machine>
    requires HasPrefix(s, "PRINT(")
  {
    match ParsePrint(s)
    case Unconverted => None
    case Message(msg) => Some(m.(trace := m.trace + [Printed(">> " + msg + "\n")]))
    case MessageAndVar(msg, name) =>
      match VarSlot(m.vars, Trim(name))
      case None => None
      case Some((vs, i)) => Some(Machine(vs, m.trace + [Printed(">> " + msg + Decimal(vs[i].value) + "\n")]))
  }

  /** SLEEP: `usleep(ticks * 1000)`, the product converted to the unsigned `useconds_t`. */
  function SleepStep(m: Machine, s: string): Option<Machine>
    requires HasPrefix(s, "SLEEP(")
  {
    match ScanInt(s, 6)
    case None => None
    case Some((ticks, _)) =>
      if !FitsInt(ticks) || !FitsInt(ticks * 1000) then None
      else Some(m.(trace := m.trace + [Slept((ticks * 1000) % TWO_POW_32)]))
  }

  /** The repeat count read after the body: 1 when no number is there, None when it is not an `int`. */
  function RepeatOf(rest: string): (r: Option<int>)
    ensures r.Some? ==> FitsInt(r.value)
  {
    match ScanInt(rest, 0)
    case None => Some(1)
    case Some((v, _)) => if FitsInt(v) then Some(v) else None
  }

  /** The nesting depth of brackets before index i of a FOR body. */
  function Depth(b: string, i: nat): int
    requires i <= |b|
  {
    if i == 0 then 0
    else Depth(b, i - 1) + (if b[i - 1] == '[' then 1 else if b[i - 1] == ']' then -1 else 0)
  }

  /** A comma outside every bracket: where a FOR body is cut. */
  predicate Separator(b: string, i: nat)
    requires i < |b|
  {
    b[i] == ',' && Depth(b, i) == 0
  }

  /** The pieces of b[..n] between separators. */
  function Pieces(b: string, n: nat): (p: seq<string>)
    requires n <= |b|
    ensures |p| >= 1
  {
    if n == 0 then [""]
    else
      var p := Pieces(b, n - 1);
      if Separator(b, n - 1) then p + [""]
      else p[..|p| - 1] + [p[|p| - 1] + [b[n - 1]]]
  }

  function Split(b: string): (p: seq<string>)
    ensures |p| >= 1 && forall k :: 0 <= k < |p| ==> |p[k]| <= |b|
  {
    PiecesShort(b, |b|);
    Pieces(b, |b|)
  }

  /** No piece of b[..n] is longer than n. */
  lemma {:induction false} PiecesShort(b: string, n: nat)
    requires n <= |b|
    ensures forall k :: 0 <= k < |Pieces(b, n)| ==> |Pieces(b, n)[k]| <= n
  {
    if n > 0 {
      PiecesShort(b, n - 1);
    }
  }

  /** The pieces put back together with commas between them. */
  function Join(p: seq<string>): string
    requires |p| >= 1
  {
    if |p| == 1 then p[0] else Join(p[..|p| - 1]) + "," + p[|p| - 1]
  }

  /** A new empty piece adds a comma to the join. */
  lemma JoinNewPiece(p: seq<string>)
    requires |p| >= 1
    ensures Join(p + [""]) == Join(p) + ","
  {
    assert (p + [""])[..|p|] == p;
  }

  /** One more character of b: the depth it leaves, and the piece it starts or extends. */
  lemma PiecesStep(b: string, i: nat)
    requires i < |b|
    ensures Depth(b, i + 1) == Depth(b, i) + (if b[i] == '[' then 1 else if b[i] == ']' then -1 else 0)
    ensures b[i] == ',' && Depth(b, i) == 0 ==> Pieces(b, i + 1) == Pieces(b, i) + [""]
    ensures !(b[i] == ',' && Depth(b, i) == 0) ==>
      var p := Pieces(b, i); Pieces(b, i + 1) == p[..|p| - 1] + [p[|p| - 1] + [b[i]]]
    ensures |Pieces(b, i + 1)| == |Pieces(b, i)| + if b[i] == ',' && Depth(b, i) == 0 then 1 else 0
  {
  }

  /** A character added to the last piece is added to the end of the join. */
  lemma JoinExtendLast(p: seq<string>, c: char)
    requires |p| >= 1
    ensures Join(p[..|p| - 1] + [p[|p| - 1] + [c]]) == Join(p) + [c]
  {
    var q := p[..|p| - 1] + [p[|p| - 1] + [c]];
    if |p| > 1 {
      assert q[..|q| - 1] == p[..|p| - 1];
      assert Join(q) == Join(p[..|p| - 1]) + "," + (p[|p| - 1] + [c]);
    }
  }

  /** The cut loses nothing: joining the pieces of b[..n] gives b[..n] back. */
  lemma {:induction false} JoinPieces(b: string, n: nat)
    requires n <= |b|
    ensures Join(Pieces(b, n)) == b[..n]
  {
    if n > 0 {
      JoinPieces(b, n - 1);
      assert b[..n] == b[..n - 1] + [b[n - 1]];
      if Separator(b, n - 1) {
        JoinNewPiece(Pieces(b, n - 1));
      } else {
        JoinExtendLast(Pieces(b, n - 1), b[n - 1]);
      }
    }
  }

  /** Splitting a longer prefix never gives fewer pieces. */
  lemma {:induction false} PiecesGrow(b: string, n: nat, n': nat)
    requires n <= n' <= |b|
    ensures |Pieces(b, n)| <= |Pieces(b, n')|
    decreases n' - n
  {
    if n < n' {
      PiecesGrow(b, n, n' - 1);
      PiecesStep(b, n' - 1);
    }
  }

  /**
   * FOR: the body runs from after the first '[' to the last ']', and the
   * repeat count is read two characters after that ']'. A body of more than
   * 16 pieces only prints a message; otherwise the pieces, each trimmed,
   * run in order, the whole `repeat` times (no time for a count below 1).
   */
  function ForStep(m: Machine, s: string): Option<Machine>
    requires HasPrefix(s, "FOR([")
    decreases |s|, 1, 0, 0
  {
    match ForArgs(s)
    case None => None
    case Some((block, count)) =>
      var pieces := Split(block);
      if |pieces| > MAX_INSTRUCTIONS then Some(m.(trace := m.trace + [Printed("Too many instructions in FOR loop\n")]))
      else RunRepeat(m, pieces, count, |s|)
  }

  /** The body and the number of rounds of a FOR; None when there is no ']' or the count is not an `int`. */
  function ForArgs(s: string): (r: Option<(string, nat)>)
    requires HasPrefix(s, "FOR([")
    ensures r.Some? ==> |r.value.0| < |s|
  {
    match FindLast(s, ']')
    case None => None
    case Some(e) =>
      var rest := if e + 2 <= |s| then s[e + 2..] else "";
      match RepeatOf(rest)
      case None => None
      case Some(repeat) =>
        if e < 5 then None
        else Some((s[5..e], if repeat > 0 then repeat else 0))
  }

  /** The tokens run r times over. */
  function RunRepeat(m: Machine, toks: seq<string>, r: nat, bound: nat): Option<Machine>
    requires forall k :: 0 <= k < |toks| ==> |toks[k]| < bound
    decreases bound, 0, r, 0
  {
    if r == 0 then Some(m)
    else match RunRepeat(m, toks, r - 1, bound)
      case None => None
      case Some(m') => RunTokens(m', toks, bound)
  }

  /** The tokens run once, in order, each trimmed. */
  function RunTokens(m: Machine, toks: seq<string>, bound: nat): Option<Machine>
    requires forall k :: 0 <= k < |toks| ==> |toks[k]| < bound
    decreases bound, 0, 0, |toks|
  {
    if toks == [] then Some(m)
    else match RunTokens(m, toks[..|toks| - 1], bound)
      case None => None
      case Some(m') => Run(m', Trim(toks[|toks| - 1]))
  }

  /** The dispatch of `barebones` on the trimmed instruction. */
  function Exec(m: Machine, s: string): Option<Machine>
    decreases |s|, 2, 0, 0
  {
    if HasPrefix(s, "DECLARE(") then DeclareStep(m, s)
    else if HasPrefix(s, "ADD(") then ArithStep(m, s, false)
    else if HasPrefix(s, "S UBTRACT") then ArithStep(m, s, true)
    else if HasPrefix(s, "PRINT(") then PrintStep(m, s)
    else if HasPrefix(s, "SLEEP(") then SleepStep(m, s)
    else if HasPrefix(s, "FOR([") then ForStep(m, s)
    else Some(m.(trace := m.trace + [Printed(">> Unknown instruction: " + s + "\n")]))
  }

  /** `barebones(instr)`: copied, trimmed, then dispatched. */
  function Run(m: Machine, instr: string): Option<Machine>
    decreases |instr|, 3, 0, 0
  {
    Exec(m, Trim(SafeCopy(instr)))
  }

  // ------------------------------------------------------- properties of Run

  /**
   * A correctly spelt SUBTRACT never reaches the subtraction: it matches
   * none of the prefixes it checks, so it is reported as an unknown instruction and no
   * variable changes.
   */
  lemma SubtractIsUnknown(m: Machine, s: string)
    requires HasPrefix(s, "SUBTRACT(")
    ensures Exec(m, s) == Some(m.(trace := m.trace + [Printed(">> Unknown instruction: " + s + "\n")]))
  {
    assert s[..9] == "SUBTRACT(";
    assert !HasPrefix(s, "DECLARE(") && !HasPrefix(s, "ADD(") by { assert s[0] == 'S'; }
    assert !HasPrefix(s, "S UBTRACT") by { assert s[1] == 'U'; }
    assert !HasPrefix(s, "PRINT(") && !HasPrefix(s, "SLEEP(") && !HasPrefix(s, "FOR([") by { assert s[0] == 'S' && s[1] == 'U'; }
  }

  /**
   * `DECLARE(name, k)` with a name of 1 to 15 characters, neither blank nor
   * comma, and a count k below 2^31: the variable (added if new) holds
   * k mod 2^16 and nothing is printed.
   */
  lemma DeclareStoresModulo(m: Machine, name: string, k: nat)
    requires 0 < |name| <= NAME_MAX && k < TWO_POW_31
    requires forall c :: c in name ==> c != ',' && !Blank(c)
    requires VarSlot(m.vars, name).Some?
    ensures var s := "DECLARE(" + name + ", " + Decimal(k) + ")";
      var (vs, i) := VarSlot(m.vars, name).value;
      && Exec(m, s) == Some(m.(vars := Assign(vs, i, k)))
      && Exec(m, s).value.vars[i] == Variable(name, k % WORD)
  {
    var s := "DECLARE(" + name + ", " + Decimal(k) + ")";
    DeclareLayout(name, k);
    ParseDeclareOf(s, name, k);
    TrimIs(name, 0, |name|);
    DeclareExec(m, s, name, k);
  }

  /** Where the parts of `DECLARE(name, k)` sit. */
  lemma DeclareLayout(name: string, k: nat)
    ensures var s := "DECLARE(" + name + ", " + Decimal(k) + ")";
      var j := 8 + |name|;
      && HasPrefix(s, "DECLARE(") && s[8..j] == name && s[j] == ',' && s[j + 1] == ' '
      && s[j + 2..j + 2 + |Decimal(k)|] == Decimal(k) && s[j + 2 + |Decimal(k)|] == ')'
  {
    var s := "DECLARE(" + name + ", " + Decimal(k) + ")";
    assert s[..8] == "DECLARE(";
  }

  /** The `sscanf` of DECLARE reads back the name and the number an instruction was written with. */
  lemma ParseDeclareOf(s: string, name: string, k: nat)
    requires 0 < |name| <= NAME_MAX && k < TWO_POW_31 && forall c :: c in name ==> c != ','
    requires var j := 8 + |name|;
      && HasPrefix(s, "DECLARE(") && j + 2 + |Decimal(k)| < |s| && s[8..j] == name && s[j] == ',' && s[j + 1] == ' '
      && s[j + 2..j + 2 + |Decimal(k)|] == Decimal(k) && s[j + 2 + |Decimal(k)|] == ')'
    ensures ParseDeclare(s) == Some((name, k))
  {
    var j := 8 + |name|;
    ScanName(s, name);
    ScanCount(s, j + 1, k);
  }

  /** `%[^,]` from index 8 reads a comma-free name up to the comma after it. */
  lemma ScanName(s: string, name: string)
    requires forall c :: c in name ==> c != ','
    requires 0 < |name| && 8 + |name| < |s| && s[8..8 + |name|] == name && s[8 + |name|] == ','
    ensures ScanSet(s, 8, |s|, {','}) == Some((name, 8 + |name|))
  {
    var j := 8 + |name|;
    forall q | 8 <= q < j
      ensures s[q] !in {','}
    {
      assert s[q] == s[8..j][q - 8] && name[q - 8] in name;
    }
    RunLengthUpTo(s, 8, |s|, {','}, j);
  }

  /** The white space directive and `%d` at index i read the number written after one space. */
  lemma ScanCount(s: string, i: nat, k: nat)
    requires i + 1 + |Decimal(k)| < |s| && s[i] == ' '
    requires s[i + 1..i + 1 + |Decimal(k)|] == Decimal(k) && s[i + 1 + |Decimal(k)|] == ')'
    ensures SkipSpaces(s, i) == i + 1 && ScanInt(s, i + 1) == Some((k, i + 1 + |Decimal(k)|))
  {
    var d := Decimal(k);
    assert s[i + 1] == s[i + 1..i + 1 + |d|][0] == d[0];
    assert SkipSpaces(s, i + 1) == i + 1;
    ScanIntBefore(s, i + 1, k);
  }

  /** A DECLARE whose `sscanf` gives a blank-free name and k stores k modulo 2^16 into that variable. */
  lemma DeclareExec(m: Machine, s: string, name: string, k: int)
    requires HasPrefix(s, "DECLARE(") && ParseDeclare(s) == Some((name, k)) && Trim(name) == name
    requires VarSlot(m.vars, name).Some?
    ensures var (vs, i) := VarSlot(m.vars, name).value;
      && Exec(m, s) == Some(m.(vars := Assign(vs, i, k)))
      && Exec(m, s).value.vars[i] == Variable(name, k % WORD)
  {
    var (vs, i) := VarSlot(m.vars, name).value;
    if Lookup(m.vars, name).None? {
      assert Truncate(name) == name;
    }
  }

  /** `SLEEP(k)` asks `usleep` for k * 1000 microseconds and changes no variable. */
  lemma SleepRecordsMicros(m: Machine, k: nat)
    requires k * 1000 < TWO_POW_31
    ensures Exec(m, "SLEEP(" + Decimal(k) + ")") == Some(m.(trace := m.trace + [Slept(k * 1000)]))
  {
    var s := "SLEEP(" + Decimal(k) + ")";
    assert !HasPrefix(s, "DECLARE(") && !HasPrefix(s, "ADD(") && !HasPrefix(s, "S UBTRACT") && !HasPrefix(s, "PRINT(") by {
      assert s[0] == 'S' && s[1] == 'L';
    }
    assert HasPrefix(s, "SLEEP(") by { assert s[..6] == "SLEEP("; }
    assert Exec(m, s) == SleepStep(m, s);
    SleepOf(m, k);
  }

  lemma SleepOf(m: Machine, k: nat)
    requires k * 1000 < TWO_POW_31
    ensures HasPrefix("SLEEP(" + Decimal(k) + ")", "SLEEP(")
    ensures SleepStep(m, "SLEEP(" + Decimal(k) + ")") == Some(m.(trace := m.trace + [Slept(k * 1000)]))
  {
    var d := Decimal(k);
    var s := "SLEEP(" + d + ")";
    assert s[..6] == "SLEEP(" && s[6..6 + |d|] == d && s[6 + |d|] == ')';
    ScanIntBefore(s, 6, k);
    SleepTicksFit(k);
  }

  /** A tick count whose milliseconds fit an `int` sleeps exactly that many milliseconds. */
  lemma SleepTicksFit(k: nat)
    requires k * 1000 < TWO_POW_31
    ensures FitsInt(k) && FitsInt(k * 1000) && (k * 1000) % TWO_POW_32 == k * 1000
  {
    var us := k * 1000;
    assert 0 <= us < TWO_POW_32;
  }

  /** `PRINT("msg")` with no '+' prints ">> ", the message and a newline, and changes no variable. */
  lemma PrintMessage(m: Machine, msg: string)
    requires 0 < |msg| <= TEXT_MAX && '"' !in msg && '+' !in msg
    ensures Exec(m, "PRINT(\"" + msg + "\")") == Some(m.(trace := m.trace + [Printed(">> " + msg + "\n")]))
  {
    var s := "PRINT(\"" + msg + "\")";
    assert !HasPrefix(s, "DECLARE(") && !HasPrefix(s, "ADD(") && !HasPrefix(s, "S UBTRACT") by {
      assert s[0] == 'P';
    }
    PrintOf(msg);
    assert Exec(m, s) == PrintStep(m, s);
  }

  /** The PRINT `sscanf` over `PRINT("msg")` reads back msg, and no '+' selects the plain message. */
  lemma PrintOf(msg: string)
    requires 0 < |msg| <= TEXT_MAX && '"' !in msg && '+' !in msg
    ensures HasPrefix("PRINT(\"" + msg + "\")", "PRINT(")
    ensures ParsePrint("PRINT(\"" + msg + "\")") == Message(msg)
  {
    var s := "PRINT(\"" + msg + "\")";
    var j := 7 + |msg|;
    assert s[..6] == "PRINT(" && s[6] == '"' && s[7..j] == msg && s[j] == '"';
    forall q | 7 <= q < j
      ensures s[q] !in {'"'}
    {
      assert s[q] == msg[q - 7] && msg[q - 7] in msg;
    }
    RunLengthUpTo(s, 7, |s|, {'"'}, j);
    assert '+' !in s;
  }

  /** `ADD()`: nothing between the '(' and the last ')' prints the refusal, trailing space included. */
  lemma EmptyAddRefused(m: Machine, tail: string)
    requires ')' !in tail
    ensures Exec(m, "ADD()" + tail) == Some(m.(trace := m.trace + [Printed("ADD instruction.\n ")]))
  {
    var s := "ADD()" + tail;
    assert s[..4] == "ADD(" && s[3] == '(' && s[4] == ')';
    assert Find(s, '(') == Some(3) by {
      assert forall k :: 0 <= k < 3 ==> s[k] != '(';
    }
    assert FindLast(s, ')') == Some(4) by {
      forall k | 4 < k < |s|
        ensures s[k] != ')'
      {
        assert s[k] == tail[k - 5] && tail[k - 5] in tail;
      }
    }
    assert !HasPrefix(s, "DECLARE(") by { assert s[0] == 'A'; }
  }

  /** A name ADD or SUBTRACT reads back whole: 1 to w characters, no ',', no white space first and no blank last. */
  predicate OperandName(n: string, w: nat) {
    0 < |n| <= w && ',' !in n && !IsSpace(n[0]) && !Blank(n[|n| - 1])
  }

  /** `%31[^,]` at i over a comma-free piece followed by ',' reads the piece. */
  lemma OperandBefore(t: string, i: nat, f: string)
    requires 0 < |f| <= OPERAND_WIDTH && ',' !in f
    requires i + |f| < |t| && t[i..i + |f|] == f && t[i + |f|] == ','
    ensures ScanSet(t, i, OPERAND_WIDTH, {','}) == Some((f, i + |f|))
  {
    forall q | i <= q < i + |f|
      ensures t[q] !in {','}
    {
      assert t[q] == f[q - i];
    }
    RunLengthUpTo(t, i, OPERAND_WIDTH, {','}, i + |f|);
  }

  /** `%31[^,]` at i over a final comma-free piece reads the piece. */
  lemma OperandLast(t: string, i: nat, f: string)
    requires 0 < |f| <= OPERAND_WIDTH && ',' !in f
    requires i + |f| == |t| && t[i..] == f
    ensures ScanSet(t, i, OPERAND_WIDTH, {','}) == Some((f, |t|))
  {
    forall q | i <= q < |t|
      ensures t[q] !in {','}
    {
      assert t[q] == t[i..][q - i] == f[q - i];
    }
    RunLengthExact(t, i, OPERAND_WIDTH, {','}, |f|);
    assert t[i..i + |f|] == f;
  }

  /** Where the pieces of "x, a, b" sit. */
  lemma OperandsLayout(x: string, a: string, b: string)
    ensures var t := x + ", " + a + ", " + b;
      var j1 := |x|;
      var j2 := j1 + 2 + |a|;
      && |t| == j2 + 2 + |b| && t[..j1] == x && t[j1] == ',' && t[j1 + 1] == ' '
      && t[j1 + 2..j2] == a && t[j2] == ',' && t[j2 + 1] == ' ' && t[j2 + 2..] == b
  {
  }

  /**
   * The operand `sscanf` over "x, a, b" reads back x, a and b; with the
   * leading white-space directive of SUBTRACT, x must not start with white
   * space for that to hold.
   */
  lemma ScanOperandsOf(x: string, a: string, b: string, skipLead: bool)
    requires 0 < |x| <= OPERAND_WIDTH && ',' !in x && (skipLead ==> !IsSpace(x[0]))
    requires OperandName(a, OPERAND_WIDTH) && OperandName(b, OPERAND_WIDTH)
    ensures ScanOperands(x + ", " + a + ", " + b, skipLead) == Some((x, a, b))
  {
    OperandsLayout(x, a, b);
    ScanOperandsAt(x + ", " + a + ", " + b, x, a, b, skipLead);
  }

  /** ScanOperandsOf, over a text with the pieces at their places. */
  lemma ScanOperandsAt(t: string, x: string, a: string, b: string, skipLead: bool)
    requires 0 < |x| <= OPERAND_WIDTH && ',' !in x && (skipLead ==> !IsSpace(x[0]))
    requires OperandName(a, OPERAND_WIDTH) && OperandName(b, OPERAND_WIDTH)
    requires var j1 := |x|;
      var j2 := j1 + 2 + |a|;
      && |t| == j2 + 2 + |b| && t[..j1] == x && t[j1] == ',' && t[j1 + 1] == ' '
      && t[j1 + 2..j2] == a && t[j2] == ',' && t[j2 + 1] == ' ' && t[j2 + 2..] == b
    ensures ScanOperands(t, skipLead) == Some((x, a, b))
  {
    var j1 := |x|;
    var j2 := j1 + 2 + |a|;
    var i1, k1, i2, k2 := j1 + 1, j1 + 2, j2 + 1, j2 + 2;
    if skipLead {
      assert t[0] == x[0];
      SkipSpacesTo(t, 0, 0);
    }
    FirstOperand(t, x, i1);
    NextOperand(t, i1, k1, a, i2);
    LastOperand(t, i2, k2, b);
    ScanOperandsStages(t, skipLead, x, i1, k1, a, i2, k2, b, |t|);
  }

  /** The first conversion reads x when a ',' follows it. */
  lemma FirstOperand(t: string, x: string, j: nat)
    requires 0 < |x| <= OPERAND_WIDTH && ',' !in x && j == |x| + 1 && j <= |t| && t[..|x|] == x && t[|x|] == ','
    ensures OperandThenComma(t, 0) == Some((x, j))
  {
    assert t[0..|x|] == x;
    OperandBefore(t, 0, x);
  }

  /** After a ',' at i - 1, one space is skipped and the next conversion reads a up to the ',' after it. */
  lemma NextOperand(t: string, i: nat, k: nat, a: string, j: nat)
    requires OperandName(a, OPERAND_WIDTH) && k == i + 1 && j == k + |a| + 1 && j <= |t|
    requires t[i] == ' ' && t[k..k + |a|] == a && t[k + |a|] == ','
    ensures SkipSpaces(t, i) == k && OperandThenComma(t, k) == Some((a, j))
  {
    assert t[k] == a[0];
    SkipSpacesTo(t, i, k);
    OperandBefore(t, k, a);
  }

  /** After a ',' at i - 1, one space is skipped and the last conversion reads b to the end. */
  lemma LastOperand(t: string, i: nat, k: nat, b: string)
    requires OperandName(b, OPERAND_WIDTH) && k == i + 1 && k + |b| == |t|
    requires t[i] == ' ' && t[k..] == b
    ensures SkipSpaces(t, i) == k && ScanSet(t, k, OPERAND_WIDTH, {','}) == Some((b, |t|))
  {
    assert t[k] == b[0];
    SkipSpacesTo(t, i, k);
    OperandLast(t, k, b);
  }

  /** The operand `sscanf` from its three conversions, the first two followed by the ',' the format asks for. */
  lemma ScanOperandsStages(t: string, skipLead: bool, x: string, j1: nat, k1: nat, y: string, j2: nat, k2: nat, z: string, j3: nat)
    requires (if skipLead then SkipSpaces(t, 0) else 0) == 0
    requires OperandThenComma(t, 0) == Some((x, j1))
    requires j1 <= |t| && SkipSpaces(t, j1) == k1 && k1 <= |t| && OperandThenComma(t, k1) == Some((y, j2))
    requires j2 <= |t| && SkipSpaces(t, j2) == k2 && k2 <= |t| && ScanSet(t, k2, OPERAND_WIDTH, {','}) == Some((z, j3))
    ensures ScanOperands(t, skipLead) == Some((x, y, z))
  {
  }

  /**
   * The operands of `p(r, a, b)`, for ADD or SUBTRACT: the text between the
   * '(' and the last ')' reads back as r, a and b, trimmed. ADD puts a
   * space in front of the text, so its r may have only 30 characters.
   */
  lemma ArithOperandsOf(s: string, p: string, r: string, a: string, b: string, subtract: bool)
    requires s == p + "(" + r + ", " + a + ", " + b + ")" && '(' !in p
    requires OperandName(r, if subtract then OPERAND_WIDTH else OPERAND_WIDTH - 1)
    requires OperandName(a, OPERAND_WIDTH) && OperandName(b, OPERAND_WIDTH)
    ensures ArithOperands(s, subtract) == Operands(r, a, b)
  {
    var args := r + ", " + a + ", " + b;
    var x := if subtract then r else " " + r;
    ArgumentsOf(s, p, args);
    ArgumentText(r, a, b, subtract);
    ScanOperandsOf(x, a, b, subtract);
    var u := if subtract then args else " " + args;
    assert Clip(u) == x + ", " + a + ", " + b;
    TrimOperand(r, x);
    TrimOperand(a, a);
    TrimOperand(b, b);
    ArithOperandsStages(s, subtract, args, x, a, b);
  }

  /** `trim` gives back an operand name, alone or with one space in front. */
  lemma TrimOperand(n: string, x: string)
    requires 0 < |n| && !IsSpace(n[0]) && !Blank(n[|n| - 1])
    requires x == n || x == " " + n
    ensures Trim(x) == n
  {
    if x == n {
      TrimIs(n, 0, |n|);
    } else {
      TrimIs(x, 1, |x|);
      assert x[1..] == n;
    }
  }

  /** The text `snprintf` leaves in `inside` for "r, a, b": all of it, after a space for ADD. */
  lemma ArgumentText(r: string, a: string, b: string, subtract: bool)
    requires |r| + |a| + |b| <= 3 * OPERAND_WIDTH
    ensures var args := r + ", " + a + ", " + b;
      var t := (if subtract then r else " " + r) + ", " + a + ", " + b;
      (if subtract then args else " " + args) == t && Clip(t) == t
  {
  }

  /** In `p(args)` with no '(' in p, the first '(' and the last ')' enclose args. */
  lemma ArgumentsOf(s: string, p: string, args: string)
    requires s == p + "(" + args + ")" && '(' !in p
    requires args != []
    ensures ArgumentsText(s) == Some(args)
  {
    assert s[|p| + 1..|s| - 1] == args;
    assert s[|p|] == '(';
    forall k | 0 <= k < |p|
      ensures s[k] != '('
    {
      assert s[k] == p[k];
    }
  }

  /** ArithOperands once the argument text is found and the operands read. */
  lemma ArithOperandsStages(s: string, subtract: bool, args: string, x: string, y: string, z: string)
    requires ArgumentsText(s) == Some(args)
    requires ScanOperands(Clip(if subtract then args else " " + args), subtract) == Some((x, y, z))
    ensures ArithOperands(s, subtract) == Operands(Trim(x), Trim(y), Trim(z))
  {
  }

  /**
   * `ADD(r, a, b)` with names read back whole: `get_var` binds r, a and b
   * in that order, and r takes the value of a plus the value of b modulo
   * 2^16; undefined when a `get_var` gives NULL.
   */
  lemma AddStoresSum(m: Machine, r: string, a: string, b: string)
    requires OperandName(r, OPERAND_WIDTH - 1) && OperandName(a, OPERAND_WIDTH) && OperandName(b, OPERAND_WIDTH)
    ensures var s := "ADD(" + r + ", " + a + ", " + b + ")";
      && (Bind3(m.vars, r, a, b).None? ==> Exec(m, s) == None)
      && (Bind3(m.vars, r, a, b).Some? ==> var t := Bind3(m.vars, r, a, b).value;
            Exec(m, s) == Some(m.(vars := Assign(t.0, t.1, t.0[t.2].value + t.0[t.3].value))))
  {
    var s := "ADD(" + r + ", " + a + ", " + b + ")";
    assert HasPrefix(s, "ADD") && ArithOperands(s, false) == Operands(r, a, b) by {
      ArithLayout("ADD", "ADD(", r, a, b);
      ArithOperandsOf(s, "ADD", r, a, b, false);
    }
    ArithExecOf(m, s, false, r, a, b);
  }

  /**
   * `S UBTRACT(r, a, b)`, the spelling the prefix test accepts, with names
   * read back whole: r takes the value of a minus the value of b modulo
   * 2^16; undefined when a `get_var` gives NULL.
   */
  lemma SubtractStoresDifference(m: Machine, r: string, a: string, b: string)
    requires OperandName(r, OPERAND_WIDTH) && OperandName(a, OPERAND_WIDTH) && OperandName(b, OPERAND_WIDTH)
    ensures var s := "S UBTRACT(" + r + ", " + a + ", " + b + ")";
      && (Bind3(m.vars, r, a, b).None? ==> Exec(m, s) == None)
      && (Bind3(m.vars, r, a, b).Some? ==> var t := Bind3(m.vars, r, a, b).value;
            Exec(m, s) == Some(m.(vars := Assign(t.0, t.1, t.0[t.2].value - t.0[t.3].value))))
  {
    var s := "S UBTRACT(" + r + ", " + a + ", " + b + ")";
    assert HasPrefix(s, "S UBTRACT") && ArithOperands(s, true) == Operands(r, a, b) by {
      ArithLayout("S UBTRACT", "S UBTRACT(", r, a, b);
      ArithOperandsOf(s, "S UBTRACT", r, a, b, true);
    }
    ArithExecOf(m, s, true, r, a, b);
  }

  /** `p(r, a, b)` written with its opening parenthesis in the literal q, and q's prefixes. */
  lemma ArithLayout(p: string, q: string, r: string, a: string, b: string)
    requires q == p + "("
    ensures q + r + ", " + a + ", " + b + ")" == p + "(" + r + ", " + a + ", " + b + ")"
    ensures HasPrefix(q + r + ", " + a + ", " + b + ")", p) && HasPrefix(q + r + ", " + a + ", " + b + ")", q)
  {
    var t := r + ", " + a + ", " + b + ")";
    assert q + r + ", " + a + ", " + b + ")" == q + t;
    assert p + "(" + r + ", " + a + ", " + b + ")" == p + ("(" + t);
    PrefixOfJoin(q, t);
    PrefixOfJoin(p, "(" + t);
  }

  /** An instruction starting with `ADD(` takes the ADD branch, one starting with `S UBTRACT` the SUBTRACT branch. */
  lemma ExecArith(m: Machine, s: string, subtract: bool)
    requires HasPrefix(s, if subtract then "S UBTRACT" else "ADD(")
    ensures Exec(m, s) == ArithStep(m, s, subtract)
  {
    assert s[0] == (if subtract then 'S' else 'A');
    assert !HasPrefix(s, "DECLARE(");
    assert subtract ==> !HasPrefix(s, "ADD(");
  }

  /** ADD or SUBTRACT with its operands read: undefined on a NULL, else the sum or difference stored. */
  lemma ArithExecOf(m: Machine, s: string, subtract: bool, r: string, a: string, b: string)
    requires HasPrefix(s, if subtract then "S UBTRACT" else "ADD(")
    requires ArithOperands(s, subtract) == Operands(r, a, b)
    ensures Bind3(m.vars, r, a, b).None? ==> Exec(m, s) == None
    ensures Bind3(m.vars, r, a, b).Some? ==> var t := Bind3(m.vars, r, a, b).value;
      Exec(m, s) == Some(m.(vars := Assign(t.0, t.1, if subtract then t.0[t.2].value - t.0[t.3].value else t.0[t.2].value + t.0[t.3].value)))
  {
    ExecArith(m, s, subtract);
    OperandsStepValue(m, subtract, r, a, b);
  }

  /** ADD or SUBTRACT on operand names: undefined on a NULL, else the sum or difference stored. */
  lemma OperandsStepValue(m: Machine, subtract: bool, r: string, a: string, b: string)
    ensures Bind3(m.vars, r, a, b).None? ==> OperandsStep(m, Operands(r, a, b), subtract) == None
    ensures Bind3(m.vars, r, a, b).Some? ==> var t := Bind3(m.vars, r, a, b).value;
      OperandsStep(m, Operands(r, a, b), subtract) == Some(m.(vars := Assign(t.0, t.1, if subtract then t.0[t.2].value - t.0[t.3].value else t.0[t.2].value + t.0[t.3].value)))
  {
    ApplyArithCases(m.vars, r, a, b, subtract);
  }

  /** ApplyArith is None when a `get_var` gives NULL, else the store into the slots Bind3 gives. */
  lemma ApplyArithCases(vars: seq<Variable>, r: string, a: string, b: string, subtract: bool)
    ensures Bind3(vars, r, a, b).None? ==> ApplyArith(vars, r, a, b, subtract) == None
    ensures Bind3(vars, r, a, b).Some? ==> var t := Bind3(vars, r, a, b).value;
      ApplyArith(vars, r, a, b, subtract) == Some(Assign(t.0, t.1, if subtract then t.0[t.2].value - t.0[t.3].value else t.0[t.2].value + t.0[t.3].value))
  {
    if Bind3(vars, r, a, b).Some? {
      var t := Bind3(vars, r, a, b).value;
      ApplyArithOfSlots(vars, r, a, b, subtract, t.0, t.1, t.2, t.3);
    }
  }

  /**
   * ADD reads its text with a space in front, so a result name of 31
   * characters fills the `%31[^,]` width before its ',' and the `sscanf`
   * stops: only the message is printed, where SUBTRACT reads such a name.
   */
  lemma AddLongResultUnread(m: Machine, r: string, rest: string)
    requires |r| == OPERAND_WIDTH && ',' !in r && ')' !in rest
    ensures Exec(m, "ADD(" + r + ", " + rest + ")") == Some(m.(trace := m.trace + [Printed("ADD instruction.\n")]))
  {
    var s := "ADD(" + r + ", " + rest + ")";
    var args := r + ", " + rest;
    assert s == "ADD" + "(" + args + ")" && s == "ADD(" + (args + ")");
    ArgumentsOf(s, "ADD", args);
    assert OperandThenComma(Clip(" " + args), 0).None? by {
      LongOperandUnread(Clip(" " + args), r);
    }
    PrefixOfJoin("ADD(", args + ")");
    ExecArith(m, s, false);
  }

  /** Past a leading space, 31 characters without a ',' fill the `%31[^,]` width, and the literal ',' then fails. */
  lemma LongOperandUnread(t: string, r: string)
    requires |r| == OPERAND_WIDTH && ',' !in r
    requires |t| > OPERAND_WIDTH && t[..OPERAND_WIDTH + 1] == " " + r
    ensures OperandThenComma(t, 0).None?
  {
    forall q | 0 <= q < OPERAND_WIDTH
      ensures t[q] !in {','}
    {
      if q > 0 {
        assert t[q] == r[q - 1];
      }
    }
    RunLengthExact(t, 0, OPERAND_WIDTH, {','}, OPERAND_WIDTH);
    assert t[OPERAND_WIDTH] == r[OPERAND_WIDTH - 1] != ',';
  }

  /**
   * `PRINT("msg"+x)`: ">> ", the message and the value of variable x in
   * decimal, then a newline, with x added holding 0 when it is new;
   * undefined when `get_var` gives NULL.
   */
  lemma PrintMessageAndValue(m: Machine, msg: string, x: string)
    requires 0 < |msg| <= TEXT_MAX && '"' !in msg
    requires 0 < |x| <= NAME_MAX && ')' !in x && !Blank(x[0]) && !Blank(x[|x| - 1])
    ensures var s := "PRINT(\"" + msg + "\"+" + x + ")";
      && (VarSlot(m.vars, x).None? ==> Exec(m, s) == None)
      && (VarSlot(m.vars, x).Some? ==> var (vs, i) := VarSlot(m.vars, x).value;
            Exec(m, s) == Some(Machine(vs, m.trace + [Printed(">> " + msg + Decimal(vs[i].value) + "\n")])))
  {
    var s := "PRINT(\"" + msg + "\"+" + x + ")";
    PrintVarOf(msg, x);
    TrimIs(x, 0, |x|);
    ExecPrint(m, s);
    PrintStepOf(m, s, msg, x);
  }

  /** An instruction starting with `PRINT(` takes the PRINT branch. */
  lemma ExecPrint(m: Machine, s: string)
    requires HasPrefix(s, "PRINT(")
    ensures Exec(m, s) == PrintStep(m, s)
  {
    assert s[0] == 'P';
    assert !HasPrefix(s, "DECLARE(") && !HasPrefix(s, "ADD(") && !HasPrefix(s, "S UBTRACT");
  }

  /** PRINT with a message and a name read: undefined on a NULL, else the line with the value. */
  lemma PrintStepOf(m: Machine, s: string, msg: string, x: string)
    requires HasPrefix(s, "PRINT(") && ParsePrint(s) == MessageAndVar(msg, x) && Trim(x) == x
    ensures VarSlot(m.vars, x).None? ==> PrintStep(m, s) == None
    ensures VarSlot(m.vars, x).Some? ==> var (vs, i) := VarSlot(m.vars, x).value;
      PrintStep(m, s) == Some(Machine(vs, m.trace + [Printed(">> " + msg + Decimal(vs[i].value) + "\n")]))
  {
  }

  /** The PRINT `sscanf` over `PRINT("msg"+x)` reads back msg and the name x. */
  lemma PrintVarOf(msg: string, x: string)
    requires 0 < |msg| <= TEXT_MAX && '"' !in msg
    requires 0 < |x| <= NAME_MAX && ')' !in x
    ensures HasPrefix("PRINT(\"" + msg + "\"+" + x + ")", "PRINT(")
    ensures ParsePrint("PRINT(\"" + msg + "\"+" + x + ")") == MessageAndVar(msg, x)
  {
    var s := "PRINT(\"" + msg + "\"+" + x + ")";
    var j := 7 + |msg|;
    PrintVarLayout(msg, x);
    ScanTo(s, 7, msg, '"');
    ScanTo(s, j + 2, x, ')');
    PrintVarStages(s, msg, j, x, |s| - 1);
  }

  /** Where the pieces of `PRINT("msg"+x)` sit. */
  lemma PrintVarLayout(msg: string, x: string)
    ensures var s := "PRINT(\"" + msg + "\"+" + x + ")"; var j := 7 + |msg|;
      && |s| == j + 3 + |x| && s[..6] == "PRINT(" && s[6] == '"' && s[j] == '"' && s[j + 1] == '+'
      && s[7..j] == msg && s[j + 2..|s| - 1] == x && s[|s| - 1] == ')'
  {
  }

  /** `%[^c]` at i over a piece without c followed by c reads the piece. */
  lemma ScanTo(s: string, i: nat, f: string, c: char)
    requires 0 < |f| && c !in f && i + |f| < |s| && s[i..i + |f|] == f && s[i + |f|] == c
    ensures ScanSet(s, i, |s|, {c}) == Some((f, i + |f|))
  {
    forall q | i <= q < i + |f|
      ensures s[q] !in {c}
    {
      assert s[q] == f[q - i];
    }
    RunLengthUpTo(s, i, |s|, {c}, i + |f|);
  }

  /** ParsePrint with a '+' once both scansets have read their text. */
  lemma PrintVarStages(s: string, msg: string, j: nat, x: string, k: nat)
    requires HasPrefix(s, "PRINT(") && LiteralAt(s, 6, '"')
    requires ScanSet(s, 7, |s|, {'"'}) == Some((msg, j)) && |msg| <= TEXT_MAX
    requires LiteralAt(s, j, '"') && LiteralAt(s, j + 1, '+') && j + 2 <= |s|
    requires ScanSet(s, j + 2, |s|, {')'}) == Some((x, k)) && |x| <= NAME_MAX
    ensures ParsePrint(s) == MessageAndVar(msg, x)
  {
    assert '+' in s by { assert s[j + 1] == '+'; }
  }

  /**
   * An instruction that fits `safe_instr` and holds no NUL is dispatched
   * trimmed, so blanks around it never matter.
   */
  lemma RunDispatchesTrimmed(m: Machine, instr: string)
    requires |instr| <= INSTR_MAX && '\0' !in instr
    ensures Run(m, instr) == Exec(m, Trim(instr))
    ensures Run(m, Trim(instr)) == Run(m, instr)
  {
    assert SafeCopy(instr) == instr;
    var t := Trim(instr);
    assert '\0' !in t by {
      var a := LeadingBlanks(instr);
      var r := instr[a..];
      assert t == instr[a..a + |t|];
      forall q | 0 <= q < |t|
        ensures t[q] != '\0'
      {
        assert t[q] == instr[a + q] && instr[a + q] in instr;
      }
    }
    assert SafeCopy(t) == t;
    TrimIdempotent(instr);
  }

  /**
   * An operand is always a variable name: a number such as 7 that is not
   * yet a name becomes a new variable holding 0, so ADD(x, 7, 7) stores 0
   * into x.
   */
  lemma LiteralOperandReadsZero(vars: seq<Variable>, x: string, lit: string, i: nat)
    requires Lookup(vars, x) == Some(i) && Lookup(vars, lit).None?
    requires |vars| < MAX_VARIABLES && |lit| <= NAME_MAX
    ensures ApplyArith(vars, x, lit, lit, false) == Some(Assign(vars + [Variable(lit, 0)], i, 0))
  {
    var v2 := vars + [Variable(lit, 0)];
    assert VarSlot(vars, lit) == Some((v2, |vars|));
    KnownNameFound(v2, lit, |vars|);
  }

  /**
   * The last ']' of a FOR at e, then any character, white space and a
   * rendered count that no digit follows: the body and that count.
   */
  lemma ForArgsAt(s: string, e: nat, body: string, sp: nat, c: nat)
    requires c < TWO_POW_31 && e + 2 + sp + |Decimal(c)| <= |s|
    requires HasPrefix(s, "FOR([") && 5 <= e && s[e] == ']' && s[5..e] == body
    requires forall q :: e < q < |s| ==> s[q] != ']'
    requires forall q :: e + 2 <= q < e + 2 + sp ==> IsSpace(s[q])
    requires s[e + 2 + sp..e + 2 + sp + |Decimal(c)|] == Decimal(c)
    requires e + 2 + sp + |Decimal(c)| < |s| ==> !IsDigit(s[e + 2 + sp + |Decimal(c)|])
    ensures ForArgs(s) == Some((body, c))
  {
    CountAfterBracket(s, e, sp, c);
    assert FindLast(s, ']') == Some(e);
  }

  /** White space and then a number not followed by a digit, from two characters after e: the count read is that number. */
  lemma CountAfterBracket(s: string, e: nat, sp: nat, c: nat)
    requires c < TWO_POW_31 && e + 2 + sp + |Decimal(c)| <= |s|
    requires forall q :: e + 2 <= q < e + 2 + sp ==> IsSpace(s[q])
    requires s[e + 2 + sp..e + 2 + sp + |Decimal(c)|] == Decimal(c)
    requires e + 2 + sp + |Decimal(c)| < |s| ==> !IsDigit(s[e + 2 + sp + |Decimal(c)|])
    ensures RepeatOf(s[e + 2..]) == Some(c)
  {
    var rest := s[e + 2..];
    var d := Decimal(c);
    assert rest[sp..sp + |d|] == d;
    forall q | 0 <= q < sp
      ensures IsSpace(rest[q])
    {
      assert rest[q] == s[e + 2 + q];
    }
    assert sp + |d| < |rest| ==> rest[sp + |d|] == s[e + 2 + sp + |d|];
    ScanIntAfterSpaces(rest, 0, sp, c);
  }

  /**
   * `FOR([body], c)`, written as the language writes it: the count is read
   * after the comma and the space, and c rounds of the body's pieces run,
   * each trimmed and in order, when there are at most 16 pieces; more
   * pieces only print the message.
   */
  lemma ForCount(m: Machine, body: string, c: nat)
    requires c < TWO_POW_31
    ensures var s := "FOR([" + body + "], " + Decimal(c) + ")";
      && ForArgs(s) == Some((body, c))
      && (|Split(body)| <= MAX_INSTRUCTIONS ==> Exec(m, s) == RunRepeat(m, Split(body), c, |s|))
      && (|Split(body)| > MAX_INSTRUCTIONS ==>
            Exec(m, s) == Some(m.(trace := m.trace + [Printed("Too many instructions in FOR loop\n")])))
  {
    var s := "FOR([" + body + "], " + Decimal(c) + ")";
    ForTextArgs(body, c);
    ExecFor(m, s);
    ForStepOf(m, s, body, c);
  }

  /** The `sscanf` of `FOR([body], c)` reads back the body and c. */
  lemma ForTextArgs(body: string, c: nat)
    requires c < TWO_POW_31
    ensures HasPrefix("FOR([" + body + "], " + Decimal(c) + ")", "FOR([")
    ensures ForArgs("FOR([" + body + "], " + Decimal(c) + ")") == Some((body, c))
  {
    var d := Decimal(c);
    var s := "FOR([" + body + "], " + d + ")";
    var e := 5 + |body|;
    assert s[..5] == "FOR([" && s[e] == ']' && s[5..e] == body && s[e + 2] == ' ';
    assert s[e + 3..e + 3 + |d|] == d && s[e + 3 + |d|] == ')';
    forall q | e < q < |s|
      ensures s[q] != ']'
    {
      if e + 3 <= q < e + 3 + |d| {
        assert s[q] == d[q - e - 3] && IsDigit(d[q - e - 3]);
      }
    }
    ForArgsAt(s, e, body, 1, c);
  }

  /**
   * A FOR with no number to read two characters after its last ']' (the
   * ']' ends the instruction, or a ')' or other text follows it) runs its
   * body once: the count defaults to 1.
   */
  lemma ForCountDefaultsToOne(m: Machine, s: string, e: nat)
    requires HasPrefix(s, "FOR([") && FindLast(s, ']') == Some(e) && 5 <= e
    requires e + 2 <= |s| ==> ScanInt(s[e + 2..], 0).None?
    ensures ForArgs(s) == Some((s[5..e], 1))
    ensures |Split(s[5..e])| <= MAX_INSTRUCTIONS ==> Exec(m, s) == RunTokens(m, Split(s[5..e]), |s|)
  {
    var rest := if e + 2 <= |s| then s[e + 2..] else "";
    assert RepeatOf(rest) == Some(1);
    var toks := Split(s[5..e]);
    ExecFor(m, s);
    ForStepOf(m, s, s[5..e], 1);
    assert RunRepeat(m, toks, 1, |s|) == RunTokens(m, toks, |s|) by {
      assert RunRepeat(m, toks, 0, |s|) == Some(m);
    }
  }

  /** An instruction starting with `FOR([` takes the FOR branch. */
  lemma ExecFor(m: Machine, s: string)
    requires HasPrefix(s, "FOR([")
    ensures Exec(m, s) == ForStep(m, s)
  {
    assert s[0] == 'F' && s[1] == 'O';
    assert !HasPrefix(s, "DECLARE(") && !HasPrefix(s, "ADD(") && !HasPrefix(s, "S UBTRACT");
    assert !HasPrefix(s, "PRINT(") && !HasPrefix(s, "SLEEP(");
  }

  /** The FOR branch with its body and count read: the message for more than 16 pieces, else the rounds. */
  lemma ForStepOf(m: Machine, s: string, body: string, c: nat)
    requires HasPrefix(s, "FOR([") && ForArgs(s) == Some((body, c))
    ensures |Split(body)| > MAX_INSTRUCTIONS ==>
      ForStep(m, s) == Some(m.(trace := m.trace + [Printed("Too many instructions in FOR loop\n")]))
    ensures |Split(body)| <= MAX_INSTRUCTIONS ==> ForStep(m, s) == RunRepeat(m, Split(body), c, |s|)
  {
  }

  /** `FOR([body])`: a ')' stands where the count would be read, so the body runs once. */
  lemma ForWithoutCount(m: Machine, body: string)
    ensures var s := "FOR([" + body + "])";
      && ForArgs(s) == Some((body, 1))
      && (|Split(body)| <= MAX_INSTRUCTIONS ==> Exec(m, s) == RunTokens(m, Split(body), |s|))
  {
    var s := "FOR([" + body + "])";
    var e := 5 + |body|;
    assert s[..5] == "FOR([" && s[e] == ']' && s[e + 1] == ')' && s[5..e] == body;
    assert FindLast(s, ']') == Some(e);
    assert s[e + 2..] == [];
    ForCountDefaultsToOne(m, s, e);
  }

  /** Running one more token runs it on the machine the earlier tokens left. */
  lemma RunTokensSnoc(m: Machine, toks: seq<string>, i: nat, bound: nat)
    requires i < |toks| && forall k :: 0 <= k < |toks| ==> |toks[k]| < bound
    ensures RunTokens(m, toks[..i + 1], bound)
            == match RunTokens(m, toks[..i], bound)
               case None => None
               case Some(m') => Run(m', Trim(toks[i]))
  {
    assert toks[..i + 1][..i] == toks[..i];
  }

  /** Once a token is undefined, so is the whole run of tokens. */
  lemma {:induction false} RunTokensStaysUndefined(m: Machine, toks: seq<string>, i: nat, bound: nat)
    requires i <= |toks| && forall k :: 0 <= k < |toks| ==> |toks[k]| < bound
    requires RunTokens(m, toks[..i], bound).None?
    ensures RunTokens(m, toks, bound).None?
    decreases |toks| - i
  {
    if i < |toks| {
      assert toks[..i + 1][..i] == toks[..i];
      RunTokensStaysUndefined(m, toks, i + 1, bound);
    } else {
      assert toks[..i] == toks;
    }
  }

  /** Once a round is undefined, so are all further rounds. */
  lemma {:induction false} RunRepeatStaysUndefined(m: Machine, toks: seq<string>, r: nat, r': nat, bound: nat)
    requires r <= r' && forall k :: 0 <= k < |toks| ==> |toks[k]| < bound
    requires RunRepeat(m, toks, r, bound).None?
    ensures RunRepeat(m, toks, r', bound).None?
    decreases r' - r
  {
    if r < r' {
      RunRepeatStaysUndefined(m, toks, r, r' - 1, bound);
    }
  }

  /** Repetition is sequencing: r + 1 rounds are one round followed by r more. */
  lemma {:induction false} RunRepeatUnfolds(m: Machine, toks: seq<string>, r: nat, bound: nat)
    requires forall k :: 0 <= k < |toks| ==> |toks[k]| < bound
    ensures RunRepeat(m, toks, r + 1, bound) ==
            match RunTokens(m, toks, bound)
            case None => None
            case Some(m') => RunRepeat(m', toks, r, bound)
  {
    if r > 0 {
      RunRepeatUnfolds(m, toks, r - 1, bound);
    }
  }

  /** The interpreter's state: the globals `vars` and `var_count`, and what it has printed and slept. */
  class Interpreter {
    var vars: array<Variable>
    var varCount: nat
    var trace: seq<Event>

    ghost predicate Valid()
      reads this
    {
      vars.Length == MAX_VARIABLES && varCount <= MAX_VARIABLES
    }

    function State(): (m: Machine)
      requires Valid()
      reads this, vars
      ensures |m.vars| <= MAX_VARIABLES
    {
      Machine(vars[..varCount], trace)
    }

    /** The zero-initialised table and nothing printed. */
    constructor ()
      ensures Valid() && fresh(vars) && State() == Machine([], [])
    {
      vars := new Variable[MAX_VARIABLES](_ => Variable("", 0));
      varCount := 0;
      trace := [];
    }

    /** `get_var`: the slot of the returned pointer, -1 for NULL. */
    method GetVar(name: string) returns (slot: int)
      requires Valid()
      modifies this`varCount, vars
      ensures Valid()
      ensures slot == -1 <==> VarSlot(old(State().vars), name).None?
      ensures slot != -1 ==> 0 <= slot && (State().vars, slot as nat) == VarSlot(old(State().vars), name).value
      ensures slot == -1 ==> State() == old(State())
      ensures trace == old(trace)
    {
      var i := 0;
      while i < varCount
        invariant 0 <= i <= varCount
        invariant forall k :: 0 <= k < i ==> vars[k].name != name
      {
        if vars[i].name == name {
          return i;
        }
        i := i + 1;
      }
      if varCount < MAX_VARIABLES {
        vars[varCount] := Variable(Truncate(name), 0);
        slot := varCount;
        varCount := varCount + 1;
        assert vars[..varCount] == old(vars[..varCount]) + [Variable(Truncate(name), 0)];
      } else {
        slot := -1;
      }
    }

    /** The assignment through the pointer to slot i. */
    method Store(i: nat, v: int)
      requires Valid() && i < varCount
      modifies vars
      ensures Valid() && State() == old(State()).(vars := Assign(old(State().vars), i, v))
    {
      vars[i] := vars[i].(value := v % WORD);
      assert vars[..varCount] == Assign(old(vars[..varCount]), i, v);
    }

    method Declare(s: string) returns (defined: bool)
      requires Valid() && HasPrefix(s, "DECLARE(")
      modifies this`varCount, vars
      ensures Valid()
      ensures defined == DeclareStep(old(State()), s).Some?
      ensures defined ==> State() == DeclareStep(old(State()), s).value
    {
      var parsed := ParseDeclare(s);
      if parsed.None? {
        return false;
      }
      var slot := GetVar(Trim(parsed.value.0));
      if slot < 0 {
        return false;
      }
      Store(slot, parsed.value.1);
      return true;
    }

    method Arith(s: string, subtract: bool) returns (defined: bool)
      requires Valid()
      modifies this`varCount, vars, this`trace
      ensures Valid()
      ensures defined == ArithStep(old(State()), s, subtract).Some?
      ensures defined ==> State() == ArithStep(old(State()), s, subtract).value
    {
      var ops := ArithOperands(s, subtract);
      if ops.Malformed? {
        trace := trace + [Printed(ops.message)];
        return true;
      }
      defined := Apply(ops.res, ops.op1, ops.op2, subtract);
    }

    /** The three `get_var` calls of ADD or SUBTRACT and the assignment. */
    method Apply(x: string, y: string, z: string, subtract: bool) returns (defined: bool)
      requires Valid()
      modifies this`varCount, vars
      ensures Valid() && trace == old(trace)
      ensures defined == ApplyArith(old(State().vars), x, y, z, subtract).Some?
      ensures defined ==> State().vars == ApplyArith(old(State().vars), x, y, z, subtract).value
    {
      ghost var t0 := State().vars;
      var r, a, b := GetVars(x, y, z);
      if r < 0 {
        return false;
      }
      ghost var vs := State().vars;
      var value := if subtract then vars[a].value - vars[b].value else vars[a].value + vars[b].value;
      assert value == if subtract then vs[a].value - vs[b].value else vs[a].value + vs[b].value;
      ApplyArithOfSlots(t0, x, y, z, subtract, vs, r, a, b);
      Store(r, value);
      assert State().vars == Assign(vs, r, value);
      return true;
    }

    /** `get_var` on x, y and z in turn; -1 for the result slot when one of them gives NULL. */
    method GetVars(x: string, y: string, z: string) returns (r: int, a: int, b: int)
      requires Valid()
      modifies this`varCount, vars
      ensures Valid() && trace == old(trace)
      ensures r < 0 <==> Bind3(old(State().vars), x, y, z).None?
      ensures r >= 0 ==> 0 <= a < varCount && 0 <= b < varCount
      ensures r >= 0 ==> Bind3(old(State().vars), x, y, z) == Some((State().vars, r as nat, a as nat, b as nat))
    {
      a, b := 0, 0;
      r := GetVar(x);
      if r < 0 {
        return;
      }
      a := GetVar(y);
      if a < 0 {
        return -1, 0, 0;
      }
      b := GetVar(z);
      if b < 0 {
        return -1, 0, 0;
      }
    }

    method Print(s: string) returns (defined: bool)
      requires Valid() && HasPrefix(s, "PRINT(")
      modifies this`varCount, vars, this`trace
      ensures Valid()
      ensures defined == PrintStep(old(State()), s).Some?
      ensures defined ==> State() == PrintStep(old(State()), s).value
    {
      var args := ParsePrint(s);
      match args
      case Unconverted =>
        return false;
      case Message(msg) =>
        trace := trace + [Printed(">> " + msg + "\n")];
        return true;
      case MessageAndVar(msg, name) =>
        var slot := GetVar(Trim(name));
        if slot < 0 {
          return false;
        }
        assert State().vars[slot] == vars[slot];
        trace := trace + [Printed(">> " + msg + Decimal(vars[slot].value) + "\n")];
        return true;
    }

    method Sleep(s: string) returns (defined: bool)
      requires Valid() && HasPrefix(s, "SLEEP(")
      modifies this`trace
      ensures Valid()
      ensures defined == SleepStep(old(State()), s).Some?
      ensures defined ==> State() == SleepStep(old(State()), s).value
    {
      var ticks := ScanInt(s, 6);
      if ticks.None? || !FitsInt(ticks.value.0) || !FitsInt(ticks.value.0 * 1000) {
        return false;
      }
      trace := trace + [Slept((ticks.value.0 * 1000) % TWO_POW_32)];
      return true;
    }

    /**
     * The FOR branch: the body is cut into tokens, then the tokens run in
     * order, `repeat` times, each through `barebones`.
     */
    method For(s: string) returns (defined: bool)
      requires Valid() && HasPrefix(s, "FOR([")
      modifies this`varCount, vars, this`trace
      ensures Valid()
      ensures defined == ForStep(old(State()), s).Some?
      ensures defined ==> State() == ForStep(old(State()), s).value
      decreases |s|, 1, 0, 0
    {
      var args := ForArgs(s);
      if args.None? {
        return false;
      }
      var (block, count) := args.value;
      var tokens, ok := Tokenize(block);
      if !ok {
        trace := trace + [Printed("Too many instructions in FOR loop\n")];
        return true;
      }
      assert forall k :: 0 <= k < |tokens| ==> |tokens[k]| < |s| by {
        assert tokens == Split(block);
      }
      defined := RunRepeated(tokens, count, |s|);
    }

    /** The FOR branch's outer loop: count rounds of the tokens. */
    method RunRepeated(tokens: seq<string>, count: nat, bound: nat) returns (defined: bool)
      requires Valid() && forall k :: 0 <= k < |tokens| ==> |tokens[k]| < bound
      modifies this`varCount, vars, this`trace
      ensures Valid()
      ensures defined == RunRepeat(old(State()), tokens, count, bound).Some?
      ensures defined ==> State() == RunRepeat(old(State()), tokens, count, bound).value
      decreases bound, 0, 1, 0
    {
      var r: nat := 0;
      while r < count
        invariant Valid() && r <= count
        invariant RunRepeat(old(State()), tokens, r, bound) == Some(State())
      {
        ghost var round := State();
        var done := RunRound(tokens, bound);
        assert RunRepeat(old(State()), tokens, r + 1, bound) == RunTokens(round, tokens, bound);
        if !done {
          RunRepeatStaysUndefined(old(State()), tokens, r + 1, count, bound);
          return false;
        }
        r := r + 1;
      }
      return true;
    }

    /** One round of the FOR branch: each token, trimmed, through `barebones`, in order. */
    method RunRound(tokens: seq<string>, bound: nat) returns (defined: bool)
      requires Valid() && forall k :: 0 <= k < |tokens| ==> |tokens[k]| < bound
      modifies this`varCount, vars, this`trace
      ensures Valid()
      ensures defined == RunTokens(old(State()), tokens, bound).Some?
      ensures defined ==> State() == RunTokens(old(State()), tokens, bound).value
      decreases bound, 0, 0, 0
    {
      var i := 0;
      while i < |tokens|
        invariant Valid() && i <= |tokens|
        invariant RunTokens(old(State()), tokens[..i], bound) == Some(State())
      {
        ghost var before := State();
        RunTokensSnoc(old(State()), tokens, i, bound);
        var done := Barebones(Trim(tokens[i]));
        if !done {
          RunTokensStaysUndefined(old(State()), tokens, i + 1, bound);
          return false;
        }
        assert State() == Run(before, Trim(tokens[i])).value;
        i := i + 1;
      }
      assert tokens[..|tokens|] == tokens;
      return true;
    }

    /** `barebones(instr)`: false when C leaves the outcome undefined. */
    method Barebones(instr: string) returns (defined: bool)
      requires Valid()
      modifies this`varCount, vars, this`trace
      ensures Valid()
      ensures defined == Run(old(State()), instr).Some?
      ensures defined ==> State() == Run(old(State()), instr).value
      decreases |instr|, 3, 0, 0
    {
      var s := Trim(SafeCopy(instr));
      if HasPrefix(s, "DECLARE(") {
        defined := Declare(s);
      } else if HasPrefix(s, "ADD(") {
        defined := Arith(s, false);
      } else if HasPrefix(s, "S UBTRACT") {
        defined := Arith(s, true);
      } else if HasPrefix(s, "PRINT(") {
        defined := Print(s);
      } else if HasPrefix(s, "SLEEP(") {
        defined := Sleep(s);
      } else if HasPrefix(s, "FOR([") {
        defined := For(s);
      } else {
        trace := trace + [Printed(">> Unknown instruction: " + s + "\n")];
        defined := true;
      }
    }
  }

  /**
   * The tokenising loop of the FOR branch: a running bracket depth, a cut at
   * every comma at depth 0, and a refusal (ok false) at the cut that would
   * make a 17th token.
   */
  method Tokenize(block: string) returns (tokens: seq<string>, ok: bool)
    ensures ok == (|Split(block)| <= MAX_INSTRUCTIONS)
    ensures ok ==> tokens == Split(block)
  {
    tokens := [""];
    var depth := 0;
    var i := 0;
    while i < |block|
      invariant i <= |block| && tokens == Pieces(block, i) && depth == Depth(block, i)
      invariant |tokens| <= MAX_INSTRUCTIONS
    {
      PiecesStep(block, i);
      ghost var next := Pieces(block, i + 1);
      if block[i] == '[' {
        depth := depth + 1;
      }
      if block[i] == ']' {
        depth := depth - 1;
      }
      assert depth == Depth(block, i + 1) && (block[i] == ',' ==> depth == Depth(block, i));
      if block[i] == ',' && depth == 0 {
        if |tokens| < MAX_INSTRUCTIONS {
          tokens := tokens + [""];
          assert tokens == next;
        } else {
          assert |Pieces(block, i + 1)| == MAX_INSTRUCTIONS + 1;
          PiecesGrow(block, i + 1, |block|);
          return tokens, false;
        }
      } else {
        tokens := tokens[..|tokens| - 1] + [tokens[|tokens| - 1] + [block[i]]];
        assert tokens == next;
      }
      i := i + 1;
    }
    assert tokens == Split(block);
    return tokens, true;
  }
}
