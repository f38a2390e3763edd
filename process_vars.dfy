/**
 * The variable table of a `src/` process: `get_variable`, `resolve_value`
 * and the `trim` helper of src/process.c, as functions on a value that
 * holds the live variables and the capacity of the array behind them.
 */
module ProcessVariables {
  import opened Wrappers
  import opened CText

  /** Size of a variable's name buffer (MAX_PROCESS_NAME). */
  const MAX_PROCESS_NAME: nat := 50
  /** `get_variable` refuses to grow the table once the capacity reaches this. */
  const MAX_VARIABLES_CAPACITY: int := 1000000

  type U16 = x: int | 0 <= x < 0x1_0000

  datatype Variable = Variable(name: string, value: U16)

  /** `variables[0..num_var)` and `variables_capacity`. */
  datatype Table = Table(vars: seq<Variable>, capacity: int)

  ghost predicate TableValid(t: Table) {
    1 <= t.capacity && |t.vars| <= t.capacity
  }

  function StripTrailing(s: string): (r: string)
    ensures |r| <= |s| && r == s[..|r|]
    ensures forall k :: |r| <= k < |s| ==> IsSpace(s[k])
    ensures r != [] ==> !IsSpace(r[|r| - 1])
  {
    if |s| > 0 && IsSpace(s[|s| - 1]) then StripTrailing(s[..|s| - 1]) else s
  }

  /**
   * What `trim` (src/process.c) leaves in the caller's buffer. It advances
   * only its own copy of the pointer, so leading white space stays; a string
   * that is all white space is left as it is; otherwise the trailing white
   * space is cut off.
   */
  function SrcTrim(s: string): string {
    if SkipSpaces(s, 0) == |s| then s else StripTrailing(s)
  }

  /**
   * `trim` leaves a prefix of its input: all of it when it is all white
   * space, otherwise a prefix that still holds a character that is not white
   * space, ends in one, and is followed only by white space.
   */
  lemma SrcTrimSpec(s: string)
    ensures var r := SrcTrim(s);
      && |r| <= |s| && r == s[..|r|]
      && (SkipSpaces(s, 0) == |s| ==> r == s)
      && (SkipSpaces(s, 0) < |s| ==>
            SkipSpaces(r, 0) < |r| && !IsSpace(r[|r| - 1]) && forall k :: |r| <= k < |s| ==> IsSpace(s[k]))
  {
    if SkipSpaces(s, 0) < |s| {
      var r := StripTrailing(s);
      assert s[SkipSpaces(s, 0)] == r[SkipSpaces(s, 0)];
    }
  }

  /** The characters of s that are not white space, in order. */
  function RemoveSpaces(s: string): string {
    if s == [] then []
    else if IsSpace(s[|s| - 1]) then RemoveSpaces(s[..|s| - 1])
    else RemoveSpaces(s[..|s| - 1]) + [s[|s| - 1]]
  }

  /** Removing white space keeps only characters of the input, none of them white space. */
  lemma {:induction false} RemoveSpacesShape(s: string)
    ensures |RemoveSpaces(s)| <= |s|
    ensures forall c :: c in RemoveSpaces(s) ==> c in s && !IsSpace(c)
  {
    if s != [] {
      RemoveSpacesShape(s[..|s| - 1]);
      assert forall c :: c in s[..|s| - 1] ==> c in s;
    }
  }

  /** The name under which `get_variable` files `name`: at most 49 characters, white space removed. */
  function NameKey(name: string): string {
    var truncated := if |name| <= MAX_PROCESS_NAME - 1 then name else name[..MAX_PROCESS_NAME - 1];
    RemoveSpaces(SrcTrim(truncated))
  }

  /** First index whose name equals key (the `strcmp` scan over `num_var` entries). */
  function FindName(vars: seq<Variable>, key: string): (r: Option<nat>)
    ensures r.Some? ==>
              && r.value < |vars| && vars[r.value].name == key
              && forall j :: 0 <= j < r.value ==> vars[j].name != key
    ensures r.None? ==> forall j :: 0 <= j < |vars| ==> vars[j].name != key
  {
    if vars == [] then None
    else match FindName(vars[..|vars| - 1], key)
      case Some(i) => Some(i)
      case None => if vars[|vars| - 1].name == key then Some(|vars| - 1) else None
  }

  predicate Known(t: Table, name: string) {
    FindName(t.vars, NameKey(name)).Some?
  }

  /**
   * `get_variable`: the index of the variable (None for NULL) and the table
   * afterwards. A known name is found in place; an unknown one is appended
   * at 0, doubling the capacity when the table is full, unless the capacity
   * has already reached MAX_VARIABLES_CAPACITY.
   */
  function Lookup(t: Table, name: string): (Option<nat>, Table) {
    var key := NameKey(name);
    match FindName(t.vars, key)
    case Some(i) => (Some(i), t)
    case None =>
      if |t.vars| >= t.capacity then
        if t.capacity >= MAX_VARIABLES_CAPACITY then (None, t)
        else (Some(|t.vars|), Table(t.vars + [Variable(key, 0)], t.capacity * 2))
      else (Some(|t.vars|), Table(t.vars + [Variable(key, 0)], t.capacity))
  }

  /**
   * `resolve_value`: an empty operand gives the fallback; otherwise the
   * variable's value, which is 0 when the lookup had to create it.
   */
  function Resolve(t: Table, arg: string, fallback: U16): (U16, Table) {
    if arg == [] then (fallback, t)
    else
      LookupSpec(t, arg);
      var (v, t') := Lookup(t, arg);
      if v.Some? then (t'.vars[v.value].value, t') else (fallback, t')
  }

  /** Writes `value` into variable i. */
  function SetValue(t: Table, i: nat, value: U16): (r: Table)
    requires i < |t.vars|
    ensures r.capacity == t.capacity && |r.vars| == |t.vars|
    ensures r.vars[i] == Variable(t.vars[i].name, value)
    ensures forall j :: 0 <= j < |t.vars| && j != i ==> r.vars[j] == t.vars[j]
  {
    Table(t.vars[i := t.vars[i].(value := value)], t.capacity)
  }

  /**
   * What `get_variable` promises: a found variable carries the filed name; a
   * known name is found in place; an unknown one is appended with value 0,
   * the capacity doubling when the table was full; NULL exactly when the
   * name is unknown and the table is full at the capacity limit.
   */
  lemma LookupSpec(t: Table, name: string)
    ensures var (d, t1) := Lookup(t, name);
      && (d.Some? ==> d.value < |t1.vars| && t1.vars[d.value].name == NameKey(name))
      && |t.vars| <= |t1.vars| <= |t.vars| + 1 && t1.vars[..|t.vars|] == t.vars
      && (Known(t, name) ==> t1 == t && d == FindName(t.vars, NameKey(name)))
      && (!Known(t, name) && d.Some? ==> d.value == |t.vars| && t1.vars == t.vars + [Variable(NameKey(name), 0)])
      && (d.None? <==> !Known(t, name) && |t.vars| >= t.capacity >= MAX_VARIABLES_CAPACITY)
      && (d.None? ==> t1 == t)
      && t1.capacity == (if !Known(t, name) && t.capacity <= |t.vars| && t.capacity < MAX_VARIABLES_CAPACITY
                         then 2 * t.capacity else t.capacity)
      && (TableValid(t) ==> TableValid(t1))
  {
  }

  /** What `resolve_value` promises: the fallback for an empty operand, else the variable's value, 0 when it had to be created. */
  lemma ResolveSpec(t: Table, arg: string, fallback: U16)
    ensures var (v, t1) := Resolve(t, arg, fallback);
      && (arg == [] ==> v == fallback && t1 == t)
      && (arg != [] && Known(t, arg) ==> v == t.vars[FindName(t.vars, NameKey(arg)).value].value && t1 == t)
      && (arg != [] && !Known(t, arg) ==> t1 == Lookup(t, arg).1 && v == if Lookup(t, arg).0.Some? then 0 else fallback)
      && |t.vars| <= |t1.vars| && t1.vars[..|t.vars|] == t.vars
  {
    if arg != [] {
      LookupSpec(t, arg);
    }
  }

  /** The names in a table are pairwise distinct. */
  ghost predicate DistinctNames(t: Table) {
    forall i, j :: 0 <= i < j < |t.vars| ==> t.vars[i].name != t.vars[j].name
  }

  /** `get_variable` never files the same name twice. */
  lemma LookupKeepsNamesDistinct(t: Table, name: string)
    requires DistinctNames(t)
    ensures DistinctNames(Lookup(t, name).1)
  {
    LookupSpec(t, name);
  }

  /** The filed name never holds white space and fits the 50-byte buffer with its terminator. */
  lemma NameKeyShape(name: string)
    ensures |NameKey(name)| <= MAX_PROCESS_NAME - 1
    ensures forall c :: c in NameKey(name) ==> !IsSpace(c)
  {
    var truncated := if |name| <= MAX_PROCESS_NAME - 1 then name else name[..MAX_PROCESS_NAME - 1];
    SrcTrimSpec(truncated);
    RemoveSpacesShape(SrcTrim(truncated));
  }

  /** Removing all white space after `trim` is the same as removing it from the untrimmed name. */
  lemma {:induction false} RemoveSpacesAfterTrim(s: string)
    ensures RemoveSpaces(SrcTrim(s)) == RemoveSpaces(s)
  {
    if SkipSpaces(s, 0) < |s| {
      SrcTrimSpec(s);
      RemoveSpacesTrailing(s, |SrcTrim(s)|);
    }
  }

  lemma {:induction false} RemoveSpacesTrailing(s: string, n: nat)
    requires n <= |s| && forall k :: n <= k < |s| ==> IsSpace(s[k])
    ensures RemoveSpaces(s[..n]) == RemoveSpaces(s)
    decreases |s|
  {
    if n < |s| {
      assert s[..|s| - 1][..n] == s[..n];
      RemoveSpacesTrailing(s[..|s| - 1], n);
    } else {
      assert s[..n] == s;
    }
  }

  /** Names that differ only in white space (within the first 49 characters) reach the same variable. */
  lemma SpacesDoNotMatter(a: string, b: string)
    requires |a| <= MAX_PROCESS_NAME - 1 && |b| <= MAX_PROCESS_NAME - 1
    requires RemoveSpaces(a) == RemoveSpaces(b)
    ensures NameKey(a) == NameKey(b)
  {
    RemoveSpacesAfterTrim(a);
    RemoveSpacesAfterTrim(b);
  }
}
