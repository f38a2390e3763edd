/**
 * `load_config` of the root build's config.c: reads "key value" pairs from
 * config.txt into the global `system_config` with no validation. The
 * scheduler branch lacks braces, so only its `strncpy` is conditional: the
 * quote strip of the stored scheduler runs after every line, and the
 * remaining key tests are the `else` of that quote test. The file is the
 * sequence of pairs `fscanf("%s %s")` returns; whether it opens is a
 * parameter.
 */
module RootConfig {
  import opened Wrappers
  import opened CText

  /** `key` and `value` are 64-byte buffers filled by `%s`: 63 characters and the NUL. */
  const TOKEN_MAX: nat := 63
  /** `sizeof(system_config.scheduler)`. */
  const SCHEDULER_SIZE: nat := 8

  /** A terminated scheduler name: at most 7 characters before the NUL in its 8 bytes. */
  type SchedulerName = s: CString | |s| < SCHEDULER_SIZE

  /** The fields of `system_config` that config.c writes. */
  datatype Settings = Settings(
    numCpu: int,
    scheduler: SchedulerName,
    quantumCycles: int,
    batchProcessFreq: int,
    minIns: int,
    maxIns: int,
    delayPerExec: int)

  /** The quote test of config.c, on the stored scheduler. */
  predicate Quoted(s: string) {
    |s| >= 1 && s[0] == '"' && s[|s| - 1] == '"'
  }

  /**
   * One pass of the read loop. First the num-cpu or scheduler assignment;
   * then, for every key, the quote test on the stored scheduler, whose
   * `else` holds the assignments of the other keys. None where C leaves the
   * outcome undefined: a token too long for its buffer, a number `atoi`
   * cannot fit in an `int`, a scheduler of 8 or more characters (copied
   * without a terminator, then measured with `strlen`), or a stored
   * scheduler that is the single character '"' (`memmove` of length -1).
   */
  function ApplyLine(c: Settings, key: CString, value: CString): Option<Settings> {
    if |key| > TOKEN_MAX || |value| > TOKEN_MAX then None
    else
      var first :=
        if key == "num-cpu" then
          (match AtoiInt(value)
           case None => None
           case Some(n) => Some(c.(numCpu := n)))
        else if key == "scheduler" then
          (if |value| >= SCHEDULER_SIZE then None else Some(c.(scheduler := value)))
        else Some(c);
      match first
      case None => None
      case Some(c1) => ApplyAfterQuote(c1, key, value)
  }

  /**
   * The quote test on the stored scheduler, run after every key, and the
   * assignments of the numeric keys in its `else`.
   */
  function ApplyAfterQuote(c1: Settings, key: CString, value: CString): Option<Settings> {
    var s := c1.scheduler;
    if Quoted(s) then
      (if |s| == 1 then None else Some(c1.(scheduler := s[1..|s| - 1])))
    else if key == "quantum-cycles" then
      (match AtoiInt(value) case None => None case Some(n) => Some(c1.(quantumCycles := n)))
    else if key == "batch-process-freq" then
      (match AtoiInt(value) case None => None case Some(n) => Some(c1.(batchProcessFreq := n)))
    else if key == "min-ins" then
      (match AtoiInt(value) case None => None case Some(n) => Some(c1.(minIns := n)))
    else if key == "max-ins" then
      (match AtoiInt(value) case None => None case Some(n) => Some(c1.(maxIns := n)))
    else if key == "delay-per-exec" then
      (match AtoiInt(value) case None => None case Some(n) => Some(c1.(delayPerExec := n)))
    else Some(c1)
  }

  /** The lines applied in file order. */
  function Load(c: Settings, lines: seq<(CString, CString)>): Option<Settings>
    decreases |lines|
  {
    if lines == [] then Some(c)
    else match Load(c, lines[..|lines| - 1])
      case None => None
      case Some(c') => ApplyLine(c', lines[|lines| - 1].0, lines[|lines| - 1].1)
  }

  /** The global `system_config`, zero-initialised. */
  class SystemConfig {
    var numCpu: int
    var scheduler: SchedulerName
    var quantumCycles: int
    var batchProcessFreq: int
    var minIns: int
    var maxIns: int
    var delayPerExec: int

    function Snapshot(): Settings
      reads this
    {
      Settings(numCpu, scheduler, quantumCycles, batchProcessFreq, minIns, maxIns, delayPerExec)
    }

    constructor ()
      ensures Snapshot() == Settings(0, "", 0, 0, 0, 0, 0)
    {
      numCpu := 0;
      scheduler := "";
      quantumCycles := 0;
      batchProcessFreq := 0;
      minIns := 0;
      maxIns := 0;
      delayPerExec := 0;
    }

    /** One pass of the read loop of `load_config`; false when C leaves the outcome undefined. */
    method ApplyPair(key: CString, value: CString) returns (defined: bool)
      modifies this
      ensures defined == ApplyLine(old(Snapshot()), key, value).Some?
      ensures defined ==> Snapshot() == ApplyLine(old(Snapshot()), key, value).value
    {
      if |key| > TOKEN_MAX || |value| > TOKEN_MAX {
        return false;
      }
      if key == "num-cpu" {
        var n := AtoiInt(value);
        if n.None? {
          return false;
        }
        numCpu := n.value;
      } else if key == "scheduler" {
        if |value| >= SCHEDULER_SIZE {
          return false;
        }
        scheduler := value;
      }
      defined := StoreAfterQuote(key, value);
    }

    method StoreAfterQuote(key: CString, value: CString) returns (defined: bool)
      modifies this
      ensures defined == ApplyAfterQuote(old(Snapshot()), key, value).Some?
      ensures defined ==> Snapshot() == ApplyAfterQuote(old(Snapshot()), key, value).value
    {
      var len := |scheduler|;
      if len >= 1 && scheduler[0] == '"' && scheduler[len - 1] == '"' {
        if len == 1 {
          return false;
        }
        scheduler := scheduler[1..len - 1];
      } else if key == "quantum-cycles" {
        var n := AtoiInt(value);
        if n.None? {
          return false;
        }
        quantumCycles := n.value;
      } else if key == "batch-process-freq" {
        var n := AtoiInt(value);
        if n.None? {
          return false;
        }
        batchProcessFreq := n.value;
      } else if key == "min-ins" {
        var n := AtoiInt(value);
        if n.None? {
          return false;
        }
        minIns := n.value;
      } else if key == "max-ins" {
        var n := AtoiInt(value);
        if n.None? {
          return false;
        }
        maxIns := n.value;
      } else if key == "delay-per-exec" {
        var n := AtoiInt(value);
        if n.None? {
          return false;
        }
        delayPerExec := n.value;
      }
      return true;
    }

    /**
     * `load_config`: nothing changes when config.txt cannot be opened;
     * otherwise every pair is applied in file order. `defined` is false when
     * some pair left the outcome undefined.
     */
    method LoadConfig(lines: seq<(CString, CString)>, canOpen: bool) returns (defined: bool)
      modifies this
      ensures !canOpen ==> defined && Snapshot() == old(Snapshot())
      ensures canOpen ==> defined == Load(old(Snapshot()), lines).Some?
      ensures canOpen && defined ==> Snapshot() == Load(old(Snapshot()), lines).value
    {
      if !canOpen {
        return true;
      }
      ghost var start := Snapshot();
      var i := 0;
      while i < |lines|
        invariant 0 <= i <= |lines|
        invariant Load(start, lines[..i]) == Some(Snapshot())
      {
        assert lines[..i + 1][..i] == lines[..i];
        var ok := ApplyPair(lines[i].0, lines[i].1);
        if !ok {
          LoadStaysUndefined(start, lines, i + 1);
          return false;
        }
        i := i + 1;
      }
      assert lines[..|lines|] == lines;
      return true;
    }
  }

  /** Once a line is undefined, so is every longer run of lines. */
  lemma {:induction false} LoadStaysUndefined(c: Settings, lines: seq<(CString, CString)>, k: nat)
    requires k <= |lines| && Load(c, lines[..k]).None?
    ensures Load(c, lines).None?
    decreases |lines| - k
  {
    if k < |lines| {
      assert lines[..k + 1][..k] == lines[..k];
      LoadStaysUndefined(c, lines, k + 1);
    } else {
      assert lines[..k] == lines;
    }
  }

  /**
   * num-cpu takes whatever `atoi` gives, with no range check: 0 and 129
   * are stored as they are (while the stored scheduler is unquoted).
   */
  lemma NumCpuUnchecked(c: Settings, n: nat)
    requires n < TWO_POW_31 && !Quoted(c.scheduler)
    ensures ApplyLine(c, "num-cpu", Decimal(n)) == Some(c.(numCpu := n))
  {
    AtoiDecimal(n);
    DecimalOfU32(n);
  }

  /** Any short scheduler name is stored, valid or not; a quoted one is unquoted on the same line. */
  lemma SchedulerUnchecked(c: Settings, v: CString)
    requires |v| < SCHEDULER_SIZE
    ensures !Quoted(v) ==> ApplyLine(c, "scheduler", v) == Some(c.(scheduler := v))
    ensures Quoted(v) && |v| >= 2 ==> ApplyLine(c, "scheduler", v) == Some(c.(scheduler := v[1..|v| - 1]))
    ensures |v| == 1 && v[0] == '"' ==> ApplyLine(c, "scheduler", v).None?
  {
  }

  /** A scheduler name of eight characters or more leaves the field unterminated. */
  lemma LongSchedulerUndefined(c: Settings, v: CString)
    requires SCHEDULER_SIZE <= |v| <= TOKEN_MAX
    ensures ApplyLine(c, "scheduler", v).None?
  {
  }

  /**
   * While the stored scheduler is quoted, any line other than num-cpu or
   * scheduler only strips one pair of quotes from it: its own assignment is
   * skipped.
   */
  lemma QuotedSchedulerSkipsAssignment(c: Settings, key: CString, value: CString)
    requires |key| <= TOKEN_MAX && |value| <= TOKEN_MAX
    requires key != "num-cpu" && key != "scheduler"
    requires Quoted(c.scheduler) && |c.scheduler| >= 2
    ensures ApplyLine(c, key, value) == Some(c.(scheduler := c.scheduler[1..|c.scheduler| - 1]))
  {
  }

  /** With an unquoted scheduler, each numeric key stores the value `atoi` reads. */
  lemma NumericKeysStoreAtoi(c: Settings, key: CString, value: CString)
    requires |key| <= TOKEN_MAX && |value| <= TOKEN_MAX && !Quoted(c.scheduler)
    requires key in {"quantum-cycles", "batch-process-freq", "min-ins", "max-ins", "delay-per-exec"}
    requires AtoiInt(value).Some?
    ensures var r := ApplyLine(c, key, value);
      && r.Some?
      && (key == "quantum-cycles" ==> r.value == c.(quantumCycles := Atoi(value)))
      && (key == "batch-process-freq" ==> r.value == c.(batchProcessFreq := Atoi(value)))
      && (key == "min-ins" ==> r.value == c.(minIns := Atoi(value)))
      && (key == "max-ins" ==> r.value == c.(maxIns := Atoi(value)))
      && (key == "delay-per-exec" ==> r.value == c.(delayPerExec := Atoi(value)))
  {
  }

  /** Keys config.c does not test, "delays-per-exec" among them, change nothing while the scheduler is unquoted. */
  lemma UnknownKeyIgnored(c: Settings, key: CString, value: CString)
    requires |key| <= TOKEN_MAX && |value| <= TOKEN_MAX && !Quoted(c.scheduler)
    requires key !in {"num-cpu", "scheduler", "quantum-cycles", "batch-process-freq", "min-ins", "max-ins", "delay-per-exec"}
    ensures ApplyLine(c, key, value) == Some(c)
  {
  }

  /**
   * A scheduler written with quotes needs no extra line to lose them, so a
   * following quantum-cycles line is applied.
   */
  lemma {:induction false} QuotedSchedulerThenQuantum(c: Settings, n: nat)
    requires n < TWO_POW_31
    ensures Load(c, [("scheduler", "\"rr\""), ("quantum-cycles", Decimal(n))])
            == Some(c.(scheduler := "rr", quantumCycles := n))
  {
    var lines: seq<(CString, CString)> := [("scheduler", "\"rr\""), ("quantum-cycles", Decimal(n))];
    assert lines[..1] == [("scheduler", "\"rr\"")];
    assert [("scheduler", "\"rr\"")][..0] == [];
    var c1 := c.(scheduler := "rr");
    QuotedRrLine(c);
    assert Load(c, lines[..1]) == Some(c1);
    QuantumLine(c1, n);
  }

  /** The line scheduler = "rr" stores rr and then loses the quotes in the same pass. */
  lemma QuotedRrLine(c: Settings)
    ensures ApplyLine(c, "scheduler", "\"rr\"") == Some(c.(scheduler := "rr"))
  {
    assert !Quoted("rr");
    assert "\"rr\""[1..3] == "rr";
  }

  /** With an unquoted scheduler, quantum-cycles stores the number it is given. */
  lemma QuantumLine(c: Settings, n: nat)
    requires n < TWO_POW_31 && !Quoted(c.scheduler)
    ensures ApplyLine(c, "quantum-cycles", Decimal(n)) == Some(c.(quantumCycles := n))
  {
    AtoiDecimal(n);
    DecimalOfU32(n);
  }
}
