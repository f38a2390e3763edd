/**
 * The instruction text parsers of src/process.c: `parse_declare`,
 * `parse_add_sub`, `parse_print`, `parse_sleep`, `parse_for`, `parse_read`,
 * `parse_write` and `parse_instruction_list`. Each builds an Instruction
 * from a C string. An outcome the C code leaves to an uninitialised buffer,
 * an `int` that `%d` cannot represent, or a copy that overruns a 50-byte
 * operand is `None`: the model does not guess what such a run produces.
 */
module ProcessParse {
  import opened Wrappers
  import opened CText
  import opened ProcessVariables
  import opened ProcessVm

  /** `char arg1[50]` and its siblings hold at most 49 characters. */
  const OPERAND_MAX: nat := 49
  /** `char buf[256]` and `char instr_list[256]` hold at most 255 characters. */
  const LIST_MAX: nat := 255
  /** `%19[^ (]`: at most 19 characters of command name. */
  const COMMAND_MAX: nat := 19
  /** `%199[^)]`: at most 199 characters of arguments. */
  const ARGS_MAX: nat := 199

  /** The "0" `parse_add_sub` puts in place of an empty third operand. */
  const ZERO: CString := "0"

  /** `Instruction inst = {0}`: empty operands, zero value and repeat count, no sub-instructions. */
  function Blank(kind: InstrType): Instruction {
    Instruction(kind, "", "", "", 0, 0, [])
  }

  /** `trim` applied to a NUL-free buffer leaves a NUL-free prefix of it. */
  function TrimC(s: CString): (r: CString)
    ensures |r| <= |s| && r == s[..|r|]
  {
    SrcTrimSpec(s);
    SrcTrim(s)
  }

  /** `%d` into an `int`: no number, a number, or one an `int` cannot hold (undefined in C). */
  datatype IntScan = NoInt | Int(value: int, next: nat) | OutOfRange

  predicate IsInt32(v: int) {
    -TWO_POW_31 <= v < TWO_POW_31
  }

  function ScanCInt(s: string, i: nat): (r: IntScan)
    requires i <= |s|
    ensures r.Int? ==> IsInt32(r.value) && i < r.next <= |s|
    ensures r.NoInt? <==> ScanInt(s, i).None?
  {
    match ScanInt(s, i)
    case None => NoInt
    case Some((v, j)) => if IsInt32(v) then Int(v, j) else OutOfRange
  }

  /** `%49[^,]` at position i. */
  function Field(s: CString, i: nat): (r: Option<(CString, nat)>)
    requires i <= |s|
    ensures r.Some? ==> i < r.value.1 <= |s| && r.value.0 == s[i..r.value.1] && 0 < |r.value.0| <= OPERAND_MAX
    ensures r.Some? ==> ',' !in r.value.0 && (r.value.1 < |s| && |r.value.0| < OPERAND_MAX ==> s[r.value.1] == ',')
    ensures r.None? <==> (i == |s| || s[i] == ',')
  {
    match ScanSet(s, i, OPERAND_MAX, {','})
    case None => None
    case Some((tok, j)) =>
      RunLengthStops(s, i);
      Some((tok, j))
  }

  lemma RunLengthStops(s: string, i: nat)
    requires i <= |s|
    ensures var n := RunLength(s, i, OPERAND_MAX, {','});
      i + n < |s| && n < OPERAND_MAX ==> s[i + n] == ','
  {
  }

  /**
   * `sscanf(args, "%49[^,],%d", name, &value)`, then `trim(name)`: the
   * trimmed name and the value, or None when either output stays
   * uninitialised or the number does not fit an `int`.
   */
  function NameAndInt(args: CString): (r: Option<(CString, int)>)
    ensures r.Some? ==> |r.value.0| <= OPERAND_MAX && IsInt32(r.value.1)
  {
    match Field(args, 0)
    case None => None
    case Some((name, j)) =>
      if !LiteralAt(args, j, ',') then None
      else match ScanCInt(args, j + 1)
        case Int(v, _) => Some((TrimC(name), v))
        case _ => None
  }

  /** `parse_declare`: DECLARE with the trimmed variable name and the constant. */
  function ParseDeclare(args: CString): Option<Instruction> {
    match NameAndInt(args)
    case None => None
    case Some((name, v)) => Some(Blank(Declare).(arg1 := name, value := v))
  }

  /** `parse_write`: WRITE with the trimmed address operand and the value. */
  function ParseWrite(args: CString): Option<Instruction> {
    match NameAndInt(args)
    case None => None
    case Some((addr, v)) => Some(Blank(Write).(arg1 := addr, value := v))
  }

  /**
   * The operand rule of `parse_add_sub` once the three fields are trimmed:
   * an operand `%d` can read goes into `value` and leaves its string empty,
   * any other operand is kept as a variable name. The third operand is read
   * last, so when both are numbers `value` holds the third.
   */
  function Operands(kind: InstrType, a1: CString, t2: CString, t3: CString): Option<Instruction> {
    var s2 := ScanCInt(t2, 0);
    var s3 := ScanCInt(t3, 0);
    if s2.OutOfRange? || s3.OutOfRange? then None
    else Some(Instruction(kind, a1,
                          if s2.Int? then "" else t2,
                          if s3.Int? then "" else t3,
                          if s3.Int? then s3.value else if s2.Int? then s2.value else 0,
                          0, []))
  }

  /**
   * `parse_add_sub`: `sscanf(args, "%49[^,],%49[^,],%49[^,]", ...)`, all
   * three trimmed, an empty third operand replaced by "0", then the operand
   * rule. A field sscanf does not fill is read uninitialised (None).
   */
  function ParseAddSub(args: CString, isAdd: bool): Option<Instruction> {
    match ThreeFields(args)
    case None => None
    case Some((f1, f2, f3)) =>
      var t3 := TrimC(f3);
      Operands(if isAdd then Add else Subtract, TrimC(f1), TrimC(f2), if t3 == [] then ZERO else t3)
  }

  /** `%49[^,],%49[^,],%49[^,]`: the three raw fields, or None when sscanf fills fewer than three. */
  function ThreeFields(args: CString): Option<(CString, CString, CString)> {
    match Field(args, 0)
    case None => None
    case Some((f1, j1)) =>
      if !LiteralAt(args, j1, ',') then None
      else match TwoFields(args, j1 + 1)
        case None => None
        case Some((f2, f3)) => Some((f1, f2, f3))
  }

  /** `%49[^,],%49[^,]` from position i. */
  function TwoFields(args: CString, i: nat): Option<(CString, CString)>
    requires i <= |args|
  {
    match Field(args, i)
    case None => None
    case Some((f2, j2)) =>
      if !LiteralAt(args, j2, ',') then None
      else match Field(args, j2 + 1)
        case None => None
        case Some((f3, _)) => Some((f2, f3))
  }


  /**
   * `parse_print`: the text after the first '+', copied into `arg1` and
   * trimmed; no '+' leaves `arg1` empty. Text of 50 characters or more
   * overruns `arg1` (None).
   */
  function ParsePrint(args: CString): Option<Instruction> {
    match Find(args, '+')
    case None => Some(Blank(Print))
    case Some(p) =>
      var rest := args[p + 1..];
      if |rest| > OPERAND_MAX then None else Some(Blank(Print).(arg1 := TrimC(rest)))
  }

  /** `parse_sleep`: the `%d` prefix as the tick count, 0 when there is none. */
  function ParseSleep(args: CString): Option<Instruction> {
    match ScanCInt(args, 0)
    case OutOfRange => None
    case Int(v, _) => Some(Blank(Sleep).(value := v))
    case NoInt => Some(Blank(Sleep))
  }

  /** `parse_read`: `sscanf(args, "%49[^,],%49s", var, addr)`, both trimmed. */
  function ParseRead(args: CString): Option<Instruction> {
    match Field(args, 0)
    case None => None
    case Some((v, j)) =>
      if !LiteralAt(args, j, ',') then None
      else match ScanWord(args, j + 1, OPERAND_MAX)
        case None => None
        case Some((addr, _)) => Some(Blank(Read).(arg1 := TrimC(v), arg2 := TrimC(addr)))
  }

  /** Skips white space and commas, as `parse_for` does after the ']'. */
  function SkipSpacesCommas(s: string, i: nat): (j: nat)
    requires i <= |s|
    ensures i <= j <= |s| && (j < |s| ==> !IsSpace(s[j]) && s[j] != ',')
    ensures forall k :: i <= k < j ==> IsSpace(s[k]) || s[k] == ','
    decreases |s| - i
  {
    if i < |s| && (IsSpace(s[i]) || s[i] == ',') then SkipSpacesCommas(s, i + 1) else i
  }

  /** The ';'s `strtok` skips before a token. */
  function SkipSeparators(s: string, i: nat): (j: nat)
    requires i <= |s|
    ensures i <= j <= |s| && (j < |s| ==> s[j] != ';')
    decreases |s| - i
  {
    if i < |s| && s[i] == ';' then SkipSeparators(s, i + 1) else i
  }

  /** The end of the run of characters other than ';' that starts at i. */
  function TokenEnd(s: string, i: nat): (j: nat)
    requires i <= |s|
    ensures i <= j <= |s| && (j < |s| ==> s[j] == ';')
    decreases |s| - i
  {
    if i < |s| && s[i] != ';' then TokenEnd(s, i + 1) else i
  }

  /** A run of characters other than ';' ends where the first ';' (or the end of s) is. */
  lemma {:induction false} TokenEndExact(s: string, i: nat, n: nat)
    requires i + n <= |s|
    requires forall k :: i <= k < i + n ==> s[k] != ';'
    requires i + n == |s| || s[i + n] == ';'
    ensures TokenEnd(s, i) == i + n
    decreases n
  {
    if n > 0 {
      TokenEndExact(s, i + 1, n - 1);
    }
  }

  /**
   * One call of `strtok(_, ";")` from position i: the next maximal run of
   * characters other than ';' after any ';'s, and the position after it.
   */
  function NextToken(s: CString, i: nat): (r: Option<(CString, nat)>)
    requires i <= |s|
    ensures r.Some? ==> i < r.value.1 <= |s| && 0 < |r.value.0| <= r.value.1 - i && (r.value.1 < |s| ==> s[r.value.1] == ';')
    ensures r.None? <==> SkipSeparators(s, i) == |s|
  {
    var b := SkipSeparators(s, i);
    if b == |s| then None
    else
      var e := TokenEnd(s, b);
      Some((s[b..e], e))
  }

  /** All the tokens `strtok(_, ";")` returns from position i on. */
  function TokensFrom(s: CString, i: nat): seq<CString>
    requires i <= |s|
    decreases |s| - i
  {
    match NextToken(s, i)
    case None => []
    case Some((tok, j)) => [tok] + TokensFrom(s, j)
  }

  function Tokens(s: CString): seq<CString> {
    TokensFrom(s, 0)
  }

  /** The pieces from index m on, joined with ';'. */
  function JoinFrom(ts: seq<CString>, m: nat): CString
    decreases |ts| - m
  {
    if m >= |ts| then [] else if m == |ts| - 1 then ts[m] else ts[m] + ";" + JoinFrom(ts, m + 1)
  }

  /** The inverse of `strtok`: the pieces joined with ';'. */
  function Join(ts: seq<CString>): CString {
    JoinFrom(ts, 0)
  }

  /** What one token contributes: no instruction, an instruction, or undefined behaviour. */
  datatype Outcome = Dropped | Built(inst: Instruction) | Undefined

  function Lift(r: Option<Instruction>): Outcome {
    match r
    case None => Undefined
    case Some(inst) => Built(inst)
  }

  /**
   * One token of `parse_instruction_list`: `sscanf(token, "%19[^ (](%199[^)])",
   * cmd, args) == 2`, then the parser the command names. A token sscanf
   * fills only partly, or with an unknown command, is dropped.
   */
  function ParseCommand(tok: CString): Outcome
    decreases |tok|, 1
  {
    match SplitCommand(tok)
    case None => Dropped
    case Some((cmd, args)) =>
      if cmd == "DECLARE" then Lift(ParseDeclare(args))
      else if cmd == "ADD" then Lift(ParseAddSub(args, true))
      else if cmd == "SUBTRACT" then Lift(ParseAddSub(args, false))
      else if cmd == "PRINT" then Lift(ParsePrint(args))
      else if cmd == "SLEEP" then Lift(ParseSleep(args))
      else if cmd == "FOR" then Lift(ParseFor(args))
      else if cmd == "READ" then Lift(ParseRead(args))
      else if cmd == "WRITE" then Lift(ParseWrite(args))
      else Dropped
  }

  /**
   * `sscanf(token, "%19[^ (](%199[^)])", cmd, args) == 2`: the command name
   * before the '(' and the argument text after it, or None when sscanf
   * fills fewer than both.
   */
  function SplitCommand(tok: CString): (r: Option<(CString, CString)>)
    ensures r.Some? ==> var (cmd, args) := r.value;
      && 0 < |cmd| <= COMMAND_MAX && ' ' !in cmd && '(' !in cmd
      && 0 < |args| <= ARGS_MAX && ')' !in args
      && |cmd| + 1 + |args| <= |tok| && tok[..|cmd| + 1 + |args|] == cmd + "(" + args
    ensures |tok| > 0 && (tok[0] == ' ' || tok[0] == '(') ==> r.None?
  {
    match ScanSet(tok, 0, COMMAND_MAX, {' ', '('})
    case None => None
    case Some((cmd, j)) =>
      if !LiteralAt(tok, j, '(') then None
      else match ScanSet(tok, j + 1, ARGS_MAX, {')'})
        case None => None
        case Some((args, _)) => Some((cmd, args))
  }

  /**
   * `parse_for`: the text between the first '[' and the first ']' is the
   * instruction list, and the `%d` after any white space and commas that
   * follow the ']' is the repeat count (1 when there is none). Without a
   * '[' before a ']' the result is a FOR with repeat count 0 and no body;
   * a list with no token gives no body.
   */
  function ParseFor(args: CString): Option<Instruction>
    decreases |args|, 0
  {
    var lb := Find(args, '[');
    var rb := Find(args, ']');
    if lb.None? || rb.None? || rb.value <= lb.value then Some(Blank(For))
    else
      ForOf(RepeatsAfter(args, rb.value), ForBody(ListText(args, lb.value, rb.value)))
  }

  /** The text between the brackets, cut to the 255 characters `instr_list` keeps. */
  function ListText(args: CString, lb: nat, rb: nat): (r: CString)
    requires lb < rb < |args|
    ensures |r| <= LIST_MAX && lb + 1 + |r| <= rb && r == args[lb + 1..lb + 1 + |r|]
    ensures |r| == rb - lb - 1 || (|r| == LIST_MAX && rb - lb - 1 > LIST_MAX)
  {
    var len := if rb - lb - 1 > LIST_MAX then LIST_MAX else rb - lb - 1;
    args[lb + 1..lb + 1 + len]
  }

  /** A FOR with the given repeat count and body; undefined when either is. */
  function ForOf(repeats: Option<int>, body: Option<seq<Instruction>>): (r: Option<Instruction>)
    ensures r.Some? <==> repeats.Some? && body.Some?
  {
    if repeats.None? || body.None? then None
    else Some(Blank(For).(repeatCount := repeats.value, body := body.value))
  }

  /** The `%d` after the ']' at rb and any white space and commas: 1 when there is none, None when it overflows. */
  function RepeatsAfter(args: CString, rb: nat): Option<int>
    requires rb < |args|
  {
    match ScanCInt(args, SkipSpacesCommas(args, rb + 1))
    case OutOfRange => None
    case NoInt => Some(1)
    case Int(n, _) => Some(n)
  }

  /** The body of a FOR: no instruction for a list without a token, else one per token. */
  function ForBody(list: CString): Option<seq<Instruction>>
    decreases |list|, 4
  {
    var count := |Tokens(list)|;
    if count == 0 then Some([]) else ParseList(list, count)
  }

  /**
   * `parse_instruction_list`: the first 255 characters are split on ';' and
   * each token is parsed in turn until max_count instructions are built.
   */
  function ParseList(instrs: CString, maxCount: int): (r: Option<seq<Instruction>>)
    ensures r.Some? ==> |r.value| <= (if maxCount < 0 then 0 else maxCount)
    ensures r.Some? ==> |r.value| <= |Tokens(if |instrs| > LIST_MAX then instrs[..LIST_MAX] else instrs)|
    decreases |instrs|, 3
  {
    var buf := if |instrs| > LIST_MAX then instrs[..LIST_MAX] else instrs;
    ParseFrom(buf, 0, maxCount)
  }

  /** The `strtok` loop of `parse_instruction_list` from position i, with room for `room` more instructions. */
  function ParseFrom(buf: CString, i: nat, room: int): (r: Option<seq<Instruction>>)
    requires i <= |buf|
    ensures r.Some? ==> |r.value| <= (if room < 0 then 0 else room) && |r.value| <= |TokensFrom(buf, i)|
    decreases |buf|, 2, |buf| - i
  {
    if room <= 0 then Some([])
    else match NextToken(buf, i)
      case None => Some([])
      case Some((tok, j)) =>
        match ParseCommand(tok)
        case Undefined => None
        case Dropped => ParseFrom(buf, j, room)
        case Built(inst) =>
          match ParseFrom(buf, j, room - 1)
          case None => None
          case Some(rest) => Some([inst] + rest)
  }

  /** What each token of a list comes to, in order. */
  function OutcomesOf(toks: seq<CString>): (r: seq<Outcome>)
    ensures |r| == |toks| && forall k :: 0 <= k < |toks| ==> r[k] == ParseCommand(toks[k])
  {
    seq(|toks|, k requires 0 <= k < |toks| => ParseCommand(toks[k]))
  }

  /** The outcomes of a non-empty list are the first token's, then the rest's. */
  lemma OutcomesTail(toks: seq<CString>)
    requires toks != []
    ensures OutcomesOf(toks) != [] && OutcomesOf(toks)[0] == ParseCommand(toks[0])
    ensures OutcomesOf(toks)[1..] == OutcomesOf(toks[1..])
  {
    assert forall k :: 0 <= k < |toks| - 1 ==> OutcomesOf(toks)[1..][k] == OutcomesOf(toks[1..])[k];
  }

  /**
   * The instructions a list of token outcomes yields, one at a time, with
   * room for `room` more: an undefined token makes the list undefined, a
   * dropped one adds nothing, and tokens after the room is used up are not
   * looked at.
   */
  function Collect(os: seq<Outcome>, room: int): Option<seq<Instruction>> {
    if room <= 0 || os == [] then Some([])
    else match os[0]
      case Undefined => None
      case Dropped => Collect(os[1..], room)
      case Built(inst) =>
        match Collect(os[1..], room - 1)
        case None => None
        case Some(rest) => Some([inst] + rest)
  }

  /** The instructions built, in order. */
  function Builts(os: seq<Outcome>): (r: seq<Instruction>)
    ensures |r| <= |os|
  {
    if os == [] then [] else (if os[0].Built? then [os[0].inst] else []) + Builts(os[1..])
  }

  /** At most n of them. */
  function Prefix(s: seq<Instruction>, n: int): (r: seq<Instruction>)
    ensures |r| == if n <= 0 then 0 else if n >= |s| then |s| else n
    ensures r == s[..|r|]
  {
    if n <= 0 then [] else if n >= |s| then s else s[..n]
  }

  predicate AnyUndefined(os: seq<Outcome>) {
    exists k :: 0 <= k < |os| && os[k].Undefined?
  }

  /**
   * Outcome by outcome: with no undefined token the result is the first
   * `room` instructions built, in order; with room for every token, any
   * undefined token makes the whole list undefined.
   */
  lemma {:induction false} CollectSpec(os: seq<Outcome>, room: int)
    ensures !AnyUndefined(os) ==> Collect(os, room) == Some(Prefix(Builts(os), room))
    ensures room >= |os| && AnyUndefined(os) ==> Collect(os, room) == None
    decreases |os|
  {
    if os != [] {
      var tail := os[1..];
      AnyUndefinedCons(os);
      match os[0]
      case Undefined =>
      case Dropped =>
        assert Builts(os) == Builts(tail);
        CollectSpec(tail, room);
      case Built(inst) =>
        assert Builts(os) == [inst] + Builts(tail);
        CollectSpec(tail, room - 1);
        if room > 0 {
          PrefixCons(inst, Builts(tail), room);
        }
    }
  }

  /** A list holds an undefined outcome exactly when its head is one or its tail holds one. */
  lemma AnyUndefinedCons(os: seq<Outcome>)
    requires os != []
    ensures AnyUndefined(os) <==> os[0].Undefined? || AnyUndefined(os[1..])
  {
    var tail := os[1..];
    if AnyUndefined(os) && !os[0].Undefined? {
      var k :| 0 <= k < |os| && os[k].Undefined?;
      assert tail[k - 1] == os[k];
    }
    if AnyUndefined(tail) {
      var k :| 0 <= k < |tail| && tail[k].Undefined?;
      assert os[k + 1] == tail[k];
    }
  }

  /** Keeping n > 0 instructions of a list keeps its head and n - 1 of its tail. */
  lemma PrefixCons(inst: Instruction, s: seq<Instruction>, n: int)
    requires n > 0
    ensures Prefix([inst] + s, n) == [inst] + Prefix(s, n - 1)
  {
  }

  /**
   * One turn of the `strtok` loop, with room left and a token found: the
   * rest of the buffer parses as its tokens, with the same room and with
   * one less, and so the buffer from i does too.
   */
  lemma {:induction false} ParseFromToken(buf: CString, i: nat, room: int, tok: CString, j: nat)
    requires i <= |buf| && room > 0 && NextToken(buf, i).Some? && NextToken(buf, i).value == (tok, j)
    ensures ParseFrom(buf, i, room) == Collect(OutcomesOf(TokensFrom(buf, i)), room)
    decreases |buf| - i, 0
  {
    ParseFromTokens(buf, j, room);
    ParseFromTokens(buf, j, room - 1);
    var toks := TokensFrom(buf, i);
    assert toks != [] && toks[0] == tok && toks[1..] == TokensFrom(buf, j) by {
      assert toks == [tok] + TokensFrom(buf, j);
    }
    OutcomesTail(toks);
    ParseFromStep(buf, i, room, tok, j, OutcomesOf(toks), OutcomesOf(TokensFrom(buf, j)));
  }

  /**
   * One turn of the `strtok` loop, with room left and a token found: when
   * the rest of the buffer parses as the outcomes after the token's, so
   * does the buffer from i as all of them.
   */
  lemma ParseFromStep(buf: CString, i: nat, room: int, tok: CString, j: nat, os: seq<Outcome>, rest: seq<Outcome>)
    requires i <= |buf| && room > 0 && NextToken(buf, i).Some? && NextToken(buf, i).value == (tok, j)
    requires os != [] && os[0] == ParseCommand(tok) && os[1..] == rest
    requires j <= |buf| && ParseFrom(buf, j, room) == Collect(rest, room) && ParseFrom(buf, j, room - 1) == Collect(rest, room - 1)
    ensures ParseFrom(buf, i, room) == Collect(os, room)
  {
  }

  /** The `strtok` loop over a buffer is the token-by-token parse of the buffer's tokens. */
  lemma {:induction false} ParseFromTokens(buf: CString, i: nat, room: int)
    requires i <= |buf|
    ensures ParseFrom(buf, i, room) == Collect(OutcomesOf(TokensFrom(buf, i)), room)
    decreases |buf| - i, 1
  {
    if room > 0 {
      match NextToken(buf, i)
      case None =>
        assert TokensFrom(buf, i) == [];
        assert OutcomesOf(TokensFrom(buf, i)) == [];
        assert ParseFrom(buf, i, room) == Some([]);
      case Some((tok, j)) =>
        ParseFromToken(buf, i, room, tok, j);
    } else {
      assert ParseFrom(buf, i, room) == Some([]);
      assert Collect(OutcomesOf(TokensFrom(buf, i)), room) == Some([]);
    }
  }

  /**
   * `parse_instruction_list` over non-empty pieces without ';' joined by
   * ';' and short enough for its 256-byte buffer: the first n instructions
   * the pieces build, in order, or None when a piece is undefined.
   */
  lemma ParseListOfJoin(ts: seq<CString>, n: int)
    requires forall k :: 0 <= k < |ts| ==> |ts[k]| > 0 && ';' !in ts[k]
    requires |Join(ts)| <= LIST_MAX
    ensures !AnyUndefined(OutcomesOf(ts)) ==> ParseList(Join(ts), n) == Some(Prefix(Builts(OutcomesOf(ts)), n))
    ensures n >= |ts| && AnyUndefined(OutcomesOf(ts)) ==> ParseList(Join(ts), n) == None
  {
    TokensOfJoin(ts);
    ParseFromTokens(Join(ts), 0, n);
    CollectSpec(OutcomesOf(ts), n);
  }

  /**
   * The body of a FOR holds one instruction per token of its list that
   * builds one, in order; one undefined token makes the FOR undefined.
   */
  lemma ForBodyTokens(list: CString)
    requires |list| <= LIST_MAX
    ensures var os := OutcomesOf(Tokens(list));
      && (!AnyUndefined(os) ==> ForBody(list) == Some(Builts(os)))
      && (AnyUndefined(os) ==> ForBody(list) == None)
  {
    var toks := Tokens(list);
    var os := OutcomesOf(toks);
    if |toks| > 0 {
      assert ForBody(list) == ParseFrom(list, 0, |toks|);
      ParseFromTokens(list, 0, |toks|);
      CollectSpec(os, |os|);
    }
  }

  /**
   * `parse_for` with a list: the body is what the first 255 characters
   * between '[' and ']' build, token by token, and the repeat count the one
   * after the ']'. A FOR nested in a list never has a list of its own (the
   * outer list already ends at the first ']'), so `parse_for` never calls
   * `strtok` while an outer `strtok` loop is still running.
   */
  lemma ForBodyOfList(args: CString, lb: nat, rb: nat)
    requires Find(args, '[') == Some(lb) && Find(args, ']') == Some(rb) && lb < rb
    ensures var os := OutcomesOf(Tokens(ListText(args, lb, rb)));
      && (ParseFor(args).Some? <==> RepeatsAfter(args, rb).Some? && !AnyUndefined(os))
      && (ParseFor(args).Some? ==>
            ParseFor(args).value == Blank(For).(repeatCount := RepeatsAfter(args, rb).value, body := Builts(os)))
  {
    ForBodyTokens(ListText(args, lb, rb));
  }

  /** A ';' between tokens is skipped: the tokens from it are the tokens from after it. */
  lemma TokensSkipSeparator(s: CString, j: nat)
    requires j < |s| && s[j] == ';'
    ensures TokensFrom(s, j) == TokensFrom(s, j + 1)
  {
    assert NextToken(s, j) == NextToken(s, j + 1) by {
      assert SkipSeparators(s, j) == SkipSeparators(s, j + 1);
    }
  }

  /** s holds text from position i to its end. */
  ghost predicate HoldsAt(s: string, i: nat, text: string) {
    i + |text| == |s| && forall k :: 0 <= k < |text| ==> s[i + k] == text[k]
  }

  /** The first token of text that starts with a piece is that piece. */
  lemma TokenAt(s: CString, i: nat, t: CString)
    requires i + |t| <= |s| && |t| > 0 && ';' !in t
    requires forall k :: 0 <= k < |t| ==> s[i + k] == t[k]
    requires i + |t| == |s| || s[i + |t|] == ';'
    ensures NextToken(s, i) == Some((t, i + |t|))
  {
    forall k | i <= k < i + |t| ensures s[k] != ';' {
      assert s[i + (k - i)] == t[k - i] && t[k - i] in t;
    }
    assert s[i] == t[0];
    TokenEndExact(s, i, |t|);
    assert s[i..i + |t|] == t;
  }

  /** Joining from a piece that is not the last: that piece, a ';', then the rest joined. */
  lemma JoinParts(ts: seq<CString>, m: nat)
    requires m + 1 < |ts|
    ensures var j := JoinFrom(ts, m); var t := ts[m]; var rest := JoinFrom(ts, m + 1);
      && |j| == |t| + 1 + |rest| && j[|t|] == ';'
      && (forall k :: 0 <= k < |t| ==> j[k] == t[k])
      && (forall k :: 0 <= k < |rest| ==> j[|t| + 1 + k] == rest[k])
  {
    assert JoinFrom(ts, m) == ts[m] + ";" + JoinFrom(ts, m + 1);
  }

  /** A token found at i heads the tokens from i. */
  lemma TokensFromStep(s: CString, i: nat, t: CString)
    requires i + |t| <= |s| && NextToken(s, i) == Some((t, i + |t|))
    ensures TokensFrom(s, i) == [t] + TokensFrom(s, i + |t|)
  {
  }

  /** Where the pieces from m on are joined, the piece at m comes first, then a ';', then the rest. */
  lemma JoinFromSplit(s: CString, i: nat, ts: seq<CString>, m: nat)
    requires m + 1 < |ts| && HoldsAt(s, i, JoinFrom(ts, m))
    ensures i + |ts[m]| < |s| && s[i + |ts[m]|] == ';'
    ensures forall k :: 0 <= k < |ts[m]| ==> s[i + k] == ts[m][k]
    ensures HoldsAt(s, i + |ts[m]| + 1, JoinFrom(ts, m + 1))
  {
    JoinParts(ts, m);
    var j := JoinFrom(ts, m);
    var rest := JoinFrom(ts, m + 1);
    forall k | 0 <= k < |rest| ensures s[i + |ts[m]| + 1 + k] == rest[k] {
      assert s[i + (|ts[m]| + 1 + k)] == j[|ts[m]| + 1 + k];
    }
  }

  /** The piece at m, followed by a ';', is the first token; the rest is joined after the ';'. */
  lemma TokensFromJoinStep(s: CString, i: nat, ts: seq<CString>, m: nat)
    requires m + 1 < |ts| && HoldsAt(s, i, JoinFrom(ts, m))
    requires |ts[m]| > 0 && ';' !in ts[m]
    ensures i + |ts[m]| < |s|
    ensures TokensFrom(s, i) == [ts[m]] + TokensFrom(s, i + |ts[m]| + 1)
    ensures HoldsAt(s, i + |ts[m]| + 1, JoinFrom(ts, m + 1))
  {
    var t := ts[m];
    JoinFromSplit(s, i, ts, m);
    TokenAt(s, i, t);
    TokensFromStep(s, i, t);
    TokensSkipSeparator(s, i + |t|);
  }

  /** No tokens are left at the end of the text. */
  lemma TokensAtEnd(s: CString, i: nat)
    requires i == |s|
    ensures TokensFrom(s, i) == []
  {
    assert NextToken(s, i).None?;
  }

  /** A text that ends with one piece holds just that token. */
  lemma TokensOfLastPiece(s: CString, i: nat, t: CString)
    requires HoldsAt(s, i, t) && |t| > 0 && ';' !in t
    ensures TokensFrom(s, i) == [t]
  {
    TokenAt(s, i, t);
    TokensFromStep(s, i, t);
    TokensAtEnd(s, i + |t|);
  }

  /** Consing ts[m] onto a sequence that matches ts from m + 1 on gives one that matches ts from m on. */
  lemma ConsMatches(a: seq<CString>, b: seq<CString>, ts: seq<CString>, m: nat)
    requires m < |ts| && a == [ts[m]] + b
    requires |b| == |ts| - m - 1 && forall k :: 0 <= k < |b| ==> b[k] == ts[m + 1 + k]
    ensures |a| == |ts| - m && forall k :: 0 <= k < |ts| - m ==> a[k] == ts[m + k]
  {
    forall k | 0 <= k < |ts| - m ensures a[k] == ts[m + k] {
      if k > 0 {
        assert a[k] == b[k - 1];
      }
    }
  }

  /**
   * `strtok` on the pieces from index m on, joined with ';', gives those
   * pieces back, when none is empty or holds a ';'.
   */
  lemma {:induction false} TokensFromJoin(s: CString, i: nat, ts: seq<CString>, m: nat)
    requires m <= |ts| && HoldsAt(s, i, JoinFrom(ts, m))
    requires forall k :: 0 <= k < |ts| ==> |ts[k]| > 0 && ';' !in ts[k]
    ensures |TokensFrom(s, i)| == |ts| - m
    ensures forall k :: 0 <= k < |ts| - m ==> TokensFrom(s, i)[k] == ts[m + k]
    decreases |ts| - m
  {
    if m == |ts| {
      TokensAtEnd(s, i);
    } else if m == |ts| - 1 {
      TokensOfLastPiece(s, i, ts[m]);
    } else {
      var j := i + |ts[m]| + 1;
      TokensFromJoinStep(s, i, ts, m);
      assert HoldsAt(s, j, JoinFrom(ts, m + 1));
      TokensFromJoin(s, j, ts, m + 1);
      ConsMatches(TokensFrom(s, i), TokensFrom(s, j), ts, m);
    }
  }

  lemma TokensOfJoin(ts: seq<CString>)
    requires forall k :: 0 <= k < |ts| ==> |ts[k]| > 0 && ';' !in ts[k]
    ensures Tokens(Join(ts)) == ts
  {
    TokensFromJoin(Join(ts), 0, ts, 0);
  }

  /** A token that starts with a space or '(' has no command name: it is dropped. */
  lemma LeadingSpaceDropped(tok: CString)
    requires |tok| > 0 && (tok[0] == ' ' || tok[0] == '(')
    ensures ParseCommand(tok) == Dropped
  {
  }

  /** `%49[^,],%d` over a name, a ',' and a rendered constant. */
  lemma NameAndIntAt(s: CString, name: CString, n: nat)
    requires 0 < |name| <= OPERAND_MAX && ',' !in name && n < TWO_POW_31
    requires |name| < |s| && s[..|name|] == name && s[|name|] == ',' && s[|name| + 1..] == Decimal(n)
    ensures NameAndInt(s) == Some((TrimC(name), n))
  {
    var j := |name|;
    assert s[0..j] == name;
    FieldAt(s, 0, name);
    ScanIntAt(s, j + 1, n);
    assert ScanCInt(s, j + 1) == Int(n, |s|);
  }

  /** `parse_declare` reads back the name and the constant of "name,constant". */
  lemma ParseDeclareOfText(name: CString, n: nat)
    requires 0 < |name| <= OPERAND_MAX && ',' !in name && n < TWO_POW_31
    ensures ParseDeclare(name + "," + Decimal(n)) == Some(Blank(Declare).(arg1 := TrimC(name), value := n))
  {
    var s: CString := name + "," + Decimal(n);
    assert s[..|name|] == name;
    assert s[|name|] == ',';
    assert s[|name| + 1..] == Decimal(n);
    NameAndIntAt(s, name, n);
  }

  /** With no ',' among the first 50 characters the name overruns `%49[^,]`: the value stays uninitialised. */
  lemma ParseDeclareLongName(args: CString)
    requires |args| > OPERAND_MAX && forall k :: 0 <= k <= OPERAND_MAX ==> args[k] != ','
    ensures ParseDeclare(args) == None
  {
    RunLengthExact(args, 0, OPERAND_MAX, {','}, OPERAND_MAX);
  }

  /**
   * Numeric operands are moved into `value` and leave their strings empty;
   * executing the instruction resolves an empty operand to the fallback 0,
   * so ADD or SUBTRACT of two numbers stores 0, whatever the numbers were.
   */
  lemma NumericOperandsStoreZero(kind: InstrType, a1: CString, t2: CString, t3: CString, t: Table)
    requires kind == Add || kind == Subtract
    requires ScanInt(t2, 0).Some? && ScanInt(t3, 0).Some? && Operands(kind, a1, t2, t3).Some?
    ensures var inst := Operands(kind, a1, t2, t3).value;
      && inst.arg2 == [] && inst.arg3 == [] && inst.value == ScanInt(t3, 0).value.0
      && ArithEffect(t, inst, kind == Add) == Assign(t, a1, 0)
  {
    var inst := Operands(kind, a1, t2, t3).value;
    ResolveSpec(t, inst.arg2, 0);
    ResolveSpec(t, inst.arg3, 0);
  }

  /** A variable operand is kept by name and read from the table at execution. */
  lemma VariableOperandKept(kind: InstrType, a1: CString, t2: CString, t3: CString)
    requires ScanInt(t2, 0).None? && ScanInt(t3, 0).None? && Operands(kind, a1, t2, t3).Some?
    ensures var inst := Operands(kind, a1, t2, t3).value;
      inst.arg2 == t2 && inst.arg3 == t3 && inst.value == 0
  {
  }

  /** Without a '[' before a ']' `parse_for` returns at once: a FOR with repeat count 0 and no body. */
  lemma ForWithoutList(args: CString)
    requires '[' !in args || ']' !in args || Find(args, ']').value <= Find(args, '[').value
    ensures ParseFor(args) == Some(Blank(For))
  {
  }

  /**
   * With a '[' before a ']' (their first occurrences at lb and rb), a defined
   * FOR has no name, value 0, and the repeat count `%d` reads after the ']'
   * and any white space and commas, or 1 when there is none.
   */
  lemma ForRepeatCount(args: CString, lb: nat, rb: nat)
    requires Find(args, '[') == Some(lb) && Find(args, ']') == Some(rb) && lb < rb
    requires ParseFor(args).Some?
    ensures var f := ParseFor(args).value;
      var scan := ScanCInt(args, SkipSpacesCommas(args, rb + 1));
      && f.kind == For && f.arg1 == [] && f.value == 0
      && f.repeatCount == if scan.Int? then scan.value else 1
  {
    ForOfBrackets(args, lb, rb);
    ForOfFields(RepeatsAfter(args, rb), ForBody(ListText(args, lb, rb)));
    RepeatsAfterScan(args, rb);
  }

  /** A defined repeat count is the `%d` after the ']', or 1 when there is none. */
  lemma RepeatsAfterScan(args: CString, rb: nat)
    requires rb < |args|
    ensures var scan := ScanCInt(args, SkipSpacesCommas(args, rb + 1));
      RepeatsAfter(args, rb).Some? ==> RepeatsAfter(args, rb).value == if scan.Int? then scan.value else 1
  {
  }

  /** With a '[' before a ']', `parse_for` is the FOR of the count after the ']' and the body of the list. */
  lemma ForOfBrackets(args: CString, lb: nat, rb: nat)
    requires Find(args, '[') == Some(lb) && Find(args, ']') == Some(rb) && lb < rb
    ensures ParseFor(args) == ForOf(RepeatsAfter(args, rb), ForBody(ListText(args, lb, rb)))
  {
  }

  /** A defined FOR carries no name, value 0, and the repeat count it was given. */
  lemma ForOfFields(repeats: Option<int>, body: Option<seq<Instruction>>)
    requires ForOf(repeats, body).Some?
    ensures var f := ForOf(repeats, body).value;
      f.kind == For && f.arg1 == [] && f.value == 0 && f.repeatCount == repeats.value
  {
  }

  /** `%49[^,]` over a non-empty piece without ',' that ends at a ',' or the end of the text reads that piece. */
  lemma FieldAt(s: CString, i: nat, t: CString)
    requires 0 < |t| <= OPERAND_MAX && ',' !in t
    requires i + |t| <= |s| && s[i..i + |t|] == t && (i + |t| == |s| || s[i + |t|] == ',')
    ensures Field(s, i) == Some((t, i + |t|))
  {
    forall k | i <= k < i + |t| ensures s[k] != ',' {
      assert s[k] == t[k - i] && t[k - i] in t;
    }
    RunLengthExact(s, i, OPERAND_MAX, {','}, |t|);
  }

  /** The token "cmd(args)" splits back into the command name and the argument text. */
  lemma SplitCommandOfText(cmd: CString, args: CString, tail: CString)
    requires 0 < |cmd| <= COMMAND_MAX && ' ' !in cmd && '(' !in cmd
    requires 0 < |args| <= ARGS_MAX && ')' !in args
    ensures SplitCommand(cmd + "(" + args + ")" + tail) == Some((cmd, args))
  {
    var t := cmd + "(" + args + ")" + tail;
    forall k | 0 <= k < |cmd| ensures t[k] !in {' ', '('} {
      assert t[k] == cmd[k] && cmd[k] in cmd;
    }
    RunLengthExact(t, 0, COMMAND_MAX, {' ', '('}, |cmd|);
    assert t[..|cmd|] == cmd;
    var j := |cmd| + 1;
    forall k | j <= k < j + |args| ensures t[k] !in {')'} {
      assert t[k] == args[k - j] && args[k - j] in args;
    }
    RunLengthExact(t, j, ARGS_MAX, {')'}, |args|);
    assert t[j..j + |args|] == args;
  }

  /** `parse_write` reads back the address and the value of "address,value". */
  lemma ParseWriteOfText(addr: CString, n: nat)
    requires 0 < |addr| <= OPERAND_MAX && ',' !in addr && n < TWO_POW_31
    ensures ParseWrite(addr + "," + Decimal(n)) == Some(Blank(Write).(arg1 := TrimC(addr), value := n))
  {
    var s: CString := addr + "," + Decimal(n);
    assert s[..|addr|] == addr;
    assert s[|addr|] == ',';
    assert s[|addr| + 1..] == Decimal(n);
    NameAndIntAt(s, addr, n);
  }

  /** `parse_sleep` reads the tick count of a rendered constant. */
  lemma ParseSleepOfText(n: nat)
    requires n < TWO_POW_31
    ensures ParseSleep(Decimal(n)) == Some(Blank(Sleep).(value := n))
  {
    ScanIntAt(Decimal(n), 0, n);
  }

  /**
   * `parse_print` keeps the text after the first '+', trimmed; text too
   * long for `arg1` makes the outcome undefined.
   */
  lemma ParsePrintAfterPlus(head: CString, text: CString)
    requires '+' !in head
    ensures ParsePrint(head + "+" + text) ==
      if |text| <= OPERAND_MAX then Some(Blank(Print).(arg1 := TrimC(text))) else None
  {
    var s := head + "+" + text;
    assert s[|head|] == '+';
    var p := Find(s, '+').value;
    assert p == |head|;
    assert s[p + 1..] == text;
  }

  /** `parse_read` of "var,address" with an address free of white space reads back both operands. */
  lemma ParseReadOfText(v: CString, addr: CString)
    requires 0 < |v| <= OPERAND_MAX && ',' !in v
    requires 0 < |addr| <= OPERAND_MAX && forall c :: c in addr ==> !IsSpace(c)
    ensures ParseRead(v + "," + addr) == Some(Blank(Read).(arg1 := TrimC(v), arg2 := addr))
  {
    var s: CString := v + "," + addr;
    var j := |v| + 1;
    assert Field(s, 0) == Some((v, |v|)) && LiteralAt(s, |v|, ',') by {
      assert s[..|v|] == v && s[|v|] == ',';
      FieldAt(s, 0, v);
    }
    assert ScanWord(s, j, OPERAND_MAX) == Some((addr, |s|)) by {
      assert s[j..] == addr;
      ScanWordAt(s, j, OPERAND_MAX, addr);
    }
    ParseReadStages(s, v, |v|, j, addr);
    TrimCOfWord(addr);
  }

  /** READ's two `sscanf` fields, each found where it is, give the instruction they name. */
  lemma ParseReadStages(s: CString, v: CString, i: nat, j: nat, addr: CString)
    requires Field(s, 0) == Some((v, i)) && LiteralAt(s, i, ',') && j == i + 1
    requires ScanWord(s, j, OPERAND_MAX) == Some((addr, |s|))
    ensures ParseRead(s) == Some(Blank(Read).(arg1 := TrimC(v), arg2 := TrimC(addr)))
  {
  }

  /** `trim` leaves a word without white space as it is. */
  lemma TrimCOfWord(w: CString)
    requires 0 < |w| && forall c :: c in w ==> !IsSpace(c)
    ensures TrimC(w) == w
  {
    assert w[0] in w && w[|w| - 1] in w;
  }

  /** The commands `parse_instruction_list` knows. */
  const COMMANDS: set<CString> := {"DECLARE", "ADD", "SUBTRACT", "PRINT", "SLEEP", "FOR", "READ", "WRITE"}

  /** A well-formed token "cmd(args)" is dropped exactly when the command is not one of the eight. */
  lemma UnknownCommandDropped(cmd: CString, args: CString, tail: CString)
    requires 0 < |cmd| <= COMMAND_MAX && ' ' !in cmd && '(' !in cmd
    requires 0 < |args| <= ARGS_MAX && ')' !in args
    ensures ParseCommand(cmd + "(" + args + ")" + tail) == Dropped <==> cmd !in COMMANDS
  {
    SplitCommandOfText(cmd, args, tail);
  }

  /** `%49[^,],%49[^,]` over "b,c" reads back b and c. */
  lemma TwoFieldsAt(s: CString, i: nat, b: CString, c: CString)
    requires 0 < |b| <= OPERAND_MAX && ',' !in b
    requires 0 < |c| <= OPERAND_MAX && ',' !in c
    requires i <= |s| && s[i..] == b + "," + c
    ensures TwoFields(s, i) == Some((b, c))
  {
    var j := i + |b|;
    assert s[i..j] == b && s[j] == ',' by {
      assert s[i..j] == s[i..][..|b|];
    }
    FieldAt(s, i, b);
    assert s[j + 1..|s|] == c;
    FieldAt(s, j + 1, c);
  }

  /** `%49[^,],%49[^,],%49[^,]` over "a,b,c" reads back the three operands. */
  lemma ThreeFieldsOfText(a: CString, b: CString, c: CString)
    requires 0 < |a| <= OPERAND_MAX && ',' !in a
    requires 0 < |b| <= OPERAND_MAX && ',' !in b
    requires 0 < |c| <= OPERAND_MAX && ',' !in c
    ensures ThreeFields(a + "," + b + "," + c) == Some((a, b, c))
  {
    var s := a + "," + b + "," + c;
    assert s[0..|a|] == a && s[|a|] == ',';
    FieldAt(s, 0, a);
    assert s[|a| + 1..] == b + "," + c;
    TwoFieldsAt(s, |a| + 1, b, c);
  }

  /** `parse_add_sub` over three comma-separated operands trims each and applies the operand rule. */
  lemma ParseAddSubOfText(a: CString, b: CString, c: CString, isAdd: bool)
    requires 0 < |a| <= OPERAND_MAX && ',' !in a
    requires 0 < |b| <= OPERAND_MAX && ',' !in b
    requires 0 < |c| <= OPERAND_MAX && ',' !in c
    ensures var t3 := TrimC(c);
      ParseAddSub(a + "," + b + "," + c, isAdd) ==
        Operands(if isAdd then Add else Subtract, TrimC(a), TrimC(b), if t3 == [] then ZERO else t3)
  {
    ThreeFieldsOfText(a, b, c);
  }

}
