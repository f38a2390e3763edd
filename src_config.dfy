/**
 * `load_config` of src/config.c: reads "key value" pairs from config.txt
 * and stores each value the key's check accepts into the Config it is
 * given. The file is the sequence of pairs `fscanf("%s %s")` returns;
 * whether it opens is a parameter.
 */
module SrcConfig {
  import opened Wrappers
  import opened CText

  /** `key` and `value` are 64-byte buffers filled by `%s`: 63 characters and the NUL. */
  const TOKEN_MAX: nat := 63

  /** The fields of the Config struct as src/config.c uses them. */
  datatype Settings = Settings(
    numCpu: int,
    scheduler: string,
    quantumCycles: int,
    batchProcessFreq: int,
    minIns: int,
    maxIns: int,
    delayPerExec: int,
    maxOverallMem: int,
    memPerFrame: int,
    minMemPerProc: int,
    maxMemPerProc: int)

  /** A value wrapped in double quotes loses them; any other value is kept. */
  function StripQuotes(v: string): (r: string)
    ensures |r| <= |v|
  {
    if |v| >= 2 && v[0] == '"' && v[|v| - 1] == '"' then v[1..|v| - 1] else v
  }

  /** `(unsigned int)strtoul(value, NULL, 10)` stored into an `int` field. */
  function Unsigned(v: string): (r: int)
    ensures -TWO_POW_31 <= r < TWO_POW_31
  {
    ToInt32(StrToUL(v))
  }

  /**
   * One line of `load_config`: the value is unquoted, then checked against
   * the key's rule; a value the rule refuses, or an unknown key, leaves the
   * settings as they are. None where C leaves the outcome undefined: a
   * token too long for its buffer, or a number `atoi` cannot fit in an `int`.
   */
  function ApplyLine(c: Settings, key: CString, value: CString): Option<Settings> {
    if |key| > TOKEN_MAX || |value| > TOKEN_MAX then None
    else ApplyValue(c, key, StripQuotes(value))
  }

  /** The key tests of the read loop, on the unquoted value v: num-cpu and scheduler first. */
  function ApplyValue(c: Settings, key: string, v: string): Option<Settings> {
    if key == "num-cpu" then
      match AtoiInt(v)
      case None => None
      case Some(n) => Some(if 1 <= n <= 128 then c.(numCpu := n) else c)
    else if key == "scheduler" then
      Some(if v == "fcfs" || v == "rr" then c.(scheduler := v) else c)
    else Some(ApplyCount(c, key, v))
  }

  /** The keys whose value must be at least 1, as `strtoul` reads it. */
  function ApplyCount(c: Settings, key: string, v: string): Settings {
    if key == "quantum-cycles" then
      (if StrToUL(v) >= 1 then c.(quantumCycles := Unsigned(v)) else c)
    else if key == "batch-process-freq" then
      (if StrToUL(v) >= 1 then c.(batchProcessFreq := Unsigned(v)) else c)
    else if key == "min-ins" then
      (if StrToUL(v) >= 1 then c.(minIns := Unsigned(v)) else c)
    else if key == "max-ins" then
      (if StrToUL(v) >= 1 then c.(maxIns := Unsigned(v)) else c)
    else ApplySize(c, key, v)
  }

  /** The keys stored with no check; any other key changes nothing. */
  function ApplySize(c: Settings, key: string, v: string): Settings {
    if key == "delay-per-exec" || key == "delays-per-exec" then c.(delayPerExec := Unsigned(v))
    else if key == "max-overall-mem" then c.(maxOverallMem := Unsigned(v))
    else if key == "mem-per-frame" then c.(memPerFrame := Unsigned(v))
    else if key == "min-mem-per-proc" then c.(minMemPerProc := Unsigned(v))
    else if key == "max-mem-per-proc" then c.(maxMemPerProc := Unsigned(v))
    else c
  }

  /** The lines applied in file order. */
  function Load(c: Settings, lines: seq<(CString, CString)>): Option<Settings>
    decreases |lines|
  {
    if lines == [] then Some(c)
    else match Load(c, lines[..|lines| - 1])
      case None => None
      case Some(c') => ApplyLine(c', lines[|lines| - 1].0, lines[|lines| - 1].1)
  }

  /** The settings a pointer passed to `load_config` refers to. */
  class Config {
    var numCpu: int
    var scheduler: string
    var quantumCycles: int
    var batchProcessFreq: int
    var minIns: int
    var maxIns: int
    var delayPerExec: int
    var maxOverallMem: int
    var memPerFrame: int
    var minMemPerProc: int
    var maxMemPerProc: int

    function Snapshot(): Settings
      reads this
    {
      Settings(numCpu, scheduler, quantumCycles, batchProcessFreq, minIns, maxIns,
               delayPerExec, maxOverallMem, memPerFrame, minMemPerProc, maxMemPerProc)
    }

    constructor (initial: Settings)
      ensures Snapshot() == initial
    {
      numCpu := initial.numCpu;
      scheduler := initial.scheduler;
      quantumCycles := initial.quantumCycles;
      batchProcessFreq := initial.batchProcessFreq;
      minIns := initial.minIns;
      maxIns := initial.maxIns;
      delayPerExec := initial.delayPerExec;
      maxOverallMem := initial.maxOverallMem;
      memPerFrame := initial.memPerFrame;
      minMemPerProc := initial.minMemPerProc;
      maxMemPerProc := initial.maxMemPerProc;
    }

    /** The body of the read loop for one "key value" pair; false when C leaves the outcome undefined. */
    method ApplyPair(key: CString, value: CString) returns (defined: bool)
      modifies this
      ensures defined == ApplyLine(old(Snapshot()), key, value).Some?
      ensures defined ==> Snapshot() == ApplyLine(old(Snapshot()), key, value).value
    {
      if |key| > TOKEN_MAX || |value| > TOKEN_MAX {
        return false;
      }
      var v := value;
      if |v| >= 2 && v[0] == '"' && v[|v| - 1] == '"' {
        v := v[1..|v| - 1];
      }
      defined := StoreValue(key, v);
    }

    method StoreValue(key: string, v: string) returns (defined: bool)
      modifies this
      ensures defined == ApplyValue(old(Snapshot()), key, v).Some?
      ensures defined ==> Snapshot() == ApplyValue(old(Snapshot()), key, v).value
    {
      defined := true;
      if key == "num-cpu" {
        var n := AtoiInt(v);
        if n.None? {
          return false;
        }
        if 1 <= n.value <= 128 {
          numCpu := n.value;
        }
      } else if key == "scheduler" {
        if v == "fcfs" || v == "rr" {
          scheduler := v;
        }
      } else {
        StoreCount(key, v);
      }
    }

    method StoreCount(key: string, v: string)
      modifies this
      ensures Snapshot() == ApplyCount(old(Snapshot()), key, v)
    {
      if key == "quantum-cycles" {
        if StrToUL(v) >= 1 {
          quantumCycles := Unsigned(v);
        }
      } else if key == "batch-process-freq" {
        if StrToUL(v) >= 1 {
          batchProcessFreq := Unsigned(v);
        }
      } else if key == "min-ins" {
        if StrToUL(v) >= 1 {
          minIns := Unsigned(v);
        }
      } else if key == "max-ins" {
        if StrToUL(v) >= 1 {
          maxIns := Unsigned(v);
        }
      } else {
        StoreSize(key, v);
      }
    }

    method StoreSize(key: string, v: string)
      modifies this
      ensures Snapshot() == ApplySize(old(Snapshot()), key, v)
    {
      if key == "delay-per-exec" || key == "delays-per-exec" {
        delayPerExec := Unsigned(v);
      } else if key == "max-overall-mem" {
        maxOverallMem := Unsigned(v);
      } else if key == "mem-per-frame" {
        memPerFrame := Unsigned(v);
      } else if key == "min-mem-per-proc" {
        minMemPerProc := Unsigned(v);
      } else if key == "max-mem-per-proc" {
        maxMemPerProc := Unsigned(v);
      }
    }

    /**
     * `load_config`: 0 with nothing changed when config.txt cannot be
     * opened; otherwise 1, with every pair applied in file order. `defined`
     * is false when some pair left the outcome undefined.
     */
    method LoadConfig(lines: seq<(CString, CString)>, canOpen: bool) returns (result: int, defined: bool)
      modifies this
      ensures result == if canOpen then 1 else 0
      ensures !canOpen ==> defined && Snapshot() == old(Snapshot())
      ensures canOpen ==> defined == Load(old(Snapshot()), lines).Some?
      ensures canOpen && defined ==> Snapshot() == Load(old(Snapshot()), lines).value
    {
      if !canOpen {
        return 0, true;
      }
      ghost var start := Snapshot();
      var i := 0;
      while i < |lines|
        invariant 0 <= i <= |lines|
        invariant Load(start, lines[..i]) == Some(Snapshot())
      {
        assert lines[..i + 1][..i] == lines[..i];
        var ok := ApplyPair(lines[i].0, lines[i].1);
        if !ok {
          LoadStaysUndefined(start, lines, i + 1);
          return 1, false;
        }
        i := i + 1;
      }
      assert lines[..|lines|] == lines;
      return 1, true;
    }
  }

  /** Once a line is undefined, so is every longer run of lines. */
  lemma {:induction false} LoadStaysUndefined(c: Settings, lines: seq<(CString, CString)>, k: nat)
    requires k <= |lines| && Load(c, lines[..k]).None?
    ensures Load(c, lines).None?
    decreases |lines| - k
  {
    if k < |lines| {
      assert lines[..k + 1][..k] == lines[..k];
      LoadStaysUndefined(c, lines, k + 1);
    } else {
      assert lines[..k] == lines;
    }
  }

  /** A quoted value is read without its quotes. */
  lemma StripQuotesOfQuoted(v: string)
    ensures StripQuotes("\"" + v + "\"") == v
  {
  }

  /** The keys past num-cpu and scheduler leave those two fields alone. */
  lemma CountKeepsCpuAndScheduler(c: Settings, key: string, v: string)
    ensures ApplyCount(c, key, v).numCpu == c.numCpu
    ensures ApplyCount(c, key, v).scheduler == c.scheduler
  {
  }

  /** num-cpu is accepted only in 1..128: a configuration that starts in range stays in range. */
  lemma ApplyKeepsNumCpuInRange(c: Settings, key: CString, value: CString)
    requires 1 <= c.numCpu <= 128 && ApplyLine(c, key, value).Some?
    ensures 1 <= ApplyLine(c, key, value).value.numCpu <= 128
  {
    CountKeepsCpuAndScheduler(c, key, StripQuotes(value));
  }

  lemma {:induction false} LoadKeepsNumCpuInRange(c: Settings, lines: seq<(CString, CString)>)
    requires 1 <= c.numCpu <= 128 && Load(c, lines).Some?
    ensures 1 <= Load(c, lines).value.numCpu <= 128
    decreases |lines|
  {
    if lines != [] {
      var init := lines[..|lines| - 1];
      LoadKeepsNumCpuInRange(c, init);
      ApplyKeepsNumCpuInRange(Load(c, init).value, lines[|lines| - 1].0, lines[|lines| - 1].1);
    }
  }

  /** scheduler is accepted only as "fcfs" or "rr": a configuration holding either keeps one of them. */
  lemma ApplyKeepsSchedulerKnown(c: Settings, key: CString, value: CString)
    requires (c.scheduler == "fcfs" || c.scheduler == "rr") && ApplyLine(c, key, value).Some?
    ensures var s := ApplyLine(c, key, value).value.scheduler; s == "fcfs" || s == "rr"
  {
    CountKeepsCpuAndScheduler(c, key, StripQuotes(value));
  }

  /** The scheduler is only ever "fcfs" or "rr" once it has been either. */
  lemma {:induction false} LoadKeepsSchedulerKnown(c: Settings, lines: seq<(CString, CString)>)
    requires (c.scheduler == "fcfs" || c.scheduler == "rr") && Load(c, lines).Some?
    ensures var s := Load(c, lines).value.scheduler; s == "fcfs" || s == "rr"
    decreases |lines|
  {
    if lines != [] {
      var init := lines[..|lines| - 1];
      LoadKeepsSchedulerKnown(c, init);
      ApplyKeepsSchedulerKnown(Load(c, init).value, lines[|lines| - 1].0, lines[|lines| - 1].1);
    }
  }

  /** A key no branch names changes nothing. */
  lemma UnknownKeyIgnored(c: Settings, key: CString, value: CString)
    requires |key| <= TOKEN_MAX && |value| <= TOKEN_MAX
    requires key !in {"num-cpu", "scheduler", "quantum-cycles", "batch-process-freq", "min-ins", "max-ins",
                      "delay-per-exec", "delays-per-exec", "max-overall-mem", "mem-per-frame",
                      "min-mem-per-proc", "max-mem-per-proc"}
    ensures ApplyLine(c, key, value) == Some(c)
  {
  }

  /** A later value for an unchecked key overrides an earlier one. */
  lemma SizeLaterWins(c: Settings, key: string, v1: string, v2: string)
    ensures ApplySize(ApplySize(c, key, v1), key, v2) == ApplySize(c, key, v2)
  {
  }

  /**
   * v passes the check the read loop makes for key, so a line carrying it
   * stores it: num-cpu in 1..128, scheduler "fcfs" or "rr", the four counts
   * at least 1; the other keys have no check.
   */
  predicate Accepted(key: string, v: string) {
    if key == "num-cpu" then AtoiInt(v).Some? && 1 <= AtoiInt(v).value <= 128
    else if key == "scheduler" then v == "fcfs" || v == "rr"
    else if key == "quantum-cycles" || key == "batch-process-freq" || key == "min-ins" || key == "max-ins" then
      StrToUL(v) >= 1
    else true
  }

  /** A value the key's check refuses changes nothing (or is undefined, for an `int` overflow in num-cpu). */
  lemma RejectedValueIgnored(c: Settings, key: string, v: string)
    requires !Accepted(key, v)
    ensures ApplyValue(c, key, v).None? || ApplyValue(c, key, v) == Some(c)
  {
  }

  /** An accepted value of a checked key is stored in that key's field. */
  lemma AcceptedValueStored(c: Settings, key: string, v: string)
    requires Accepted(key, v)
    ensures ApplyValue(c, key, v).Some?
    ensures key == "num-cpu" ==> ApplyValue(c, key, v).value.numCpu == AtoiInt(v).value
    ensures key == "scheduler" ==> ApplyValue(c, key, v).value.scheduler == v
    ensures key == "quantum-cycles" ==> ApplyValue(c, key, v).value.quantumCycles == Unsigned(v)
    ensures key == "batch-process-freq" ==> ApplyValue(c, key, v).value.batchProcessFreq == Unsigned(v)
    ensures key == "min-ins" ==> ApplyValue(c, key, v).value.minIns == Unsigned(v)
    ensures key == "max-ins" ==> ApplyValue(c, key, v).value.maxIns == Unsigned(v)
  {
  }

  lemma CountLaterWins(c: Settings, key: string, v1: string, v2: string)
    requires Accepted(key, v2)
    ensures ApplyCount(ApplyCount(c, key, v1), key, v2) == ApplyCount(c, key, v2)
  {
    if key !in {"quantum-cycles", "batch-process-freq", "min-ins", "max-ins"} {
      SizeLaterWins(c, key, v1, v2);
    }
  }

  lemma ValueLaterWins(c: Settings, key: string, v1: string, v2: string)
    requires ApplyValue(c, key, v1).Some? && Accepted(key, v2)
    ensures ApplyValue(c, key, v2).Some?
    ensures ApplyValue(ApplyValue(c, key, v1).value, key, v2) == ApplyValue(c, key, v2)
  {
    if key != "num-cpu" && key != "scheduler" {
      CountLaterWins(c, key, v1, v2);
    }
  }

  /** A later accepted value for the same key overrides an earlier one. */
  lemma LaterLineWins(c: Settings, key: CString, v1: CString, v2: CString)
    requires ApplyLine(c, key, v1).Some? && |key| <= TOKEN_MAX && |v2| <= TOKEN_MAX
    requires Accepted(key, StripQuotes(v2))
    ensures ApplyLine(c, key, v2).Some?
    ensures ApplyLine(ApplyLine(c, key, v1).value, key, v2) == ApplyLine(c, key, v2)
  {
    ValueLaterWins(c, key, StripQuotes(v1), StripQuotes(v2));
  }

  /**
   * The check on quantum-cycles is made on the unsigned value, before it is
   * stored into an `int`: a count from 2^31 to 2^32 - 1 (3000000000, say)
   * passes it and is stored as a negative number of cycles.
   */
  lemma LargeQuantumStoredNegative(c: Settings, n: nat)
    requires TWO_POW_31 <= n < TWO_POW_32
    ensures ApplyLine(c, "quantum-cycles", Decimal(n)) == Some(c.(quantumCycles := n - TWO_POW_32))
  {
    var d := Decimal(n);
    AtoiDecimal(n);
    DecimalOfU32(n);
    assert IsDigit(d[0]) && StripQuotes(d) == d;
    assert Unsigned(d) == n - TWO_POW_32;
  }
}
