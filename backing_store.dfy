/**
 * src/backing_store.c: the swap file "csopesy-backing-store.txt", a run of
 * raw `Process` records. The file is a sequence of records; whether `fopen`
 * succeeds is a parameter of each operation.
 */
module BackingStore {
  import opened ProcessVm

  /**
   * One raw `Process` record as `fwrite` stores it: the header fields a
   * reader looks at, and the rest of the struct's bytes, in which pointer
   * fields are the addresses they held, not what they pointed to.
   */
  datatype Record = Record(pid: int, name: string, state: ProcState, rest: seq<bv8>)

  /** The records whose pid differs from pid, in file order. */
  function Without(records: seq<Record>, pid: int): (r: seq<Record>)
    ensures |r| <= |records|
  {
    if records == [] then []
    else
      var last := records[|records| - 1];
      Without(records[..|records| - 1], pid) + (if last.pid != pid then [last] else [])
  }

  /** A record survives removal exactly when it was stored and carries another pid. */
  lemma {:induction false} WithoutMembers(records: seq<Record>, pid: int)
    ensures forall x :: x in Without(records, pid) <==> x in records && x.pid != pid
  {
    if records != [] {
      var init := records[..|records| - 1];
      WithoutMembers(init, pid);
      assert records == init + [records[|records| - 1]];
    }
  }

  /** Removal works record by record: the records of a concatenation are filtered piecewise. */
  lemma {:induction false} WithoutAppend(a: seq<Record>, b: seq<Record>, pid: int)
    ensures Without(a + b, pid) == Without(a, pid) + Without(b, pid)
    decreases |b|
  {
    if b != [] {
      var init := b[..|b| - 1];
      assert (a + b)[..|a + b| - 1] == a + init;
      WithoutAppend(a, init, pid);
    } else {
      assert a + b == a;
    }
  }

  /** Removing the same pid twice removes nothing more. */
  lemma {:induction false} WithoutIdempotent(records: seq<Record>, pid: int)
    ensures Without(Without(records, pid), pid) == Without(records, pid)
  {
    if records != [] {
      var init := records[..|records| - 1];
      var last := records[|records| - 1];
      WithoutIdempotent(init, pid);
      WithoutAppend(Without(init, pid), if last.pid != pid then [last] else [], pid);
    }
  }

  /** The backing store file: absent, or present holding a run of records. */
  class Store {
    var present: bool
    var records: seq<Record>

    ghost predicate Valid()
      reads this
    {
      !present ==> records == []
    }

    /** No backing store file yet. */
    constructor ()
      ensures Valid() && !present && records == []
    {
      present := false;
      records := [];
    }

    /**
     * `write_process_to_backing_store`: opened for appending (created when
     * absent), the file gets exactly one more record at its end; when it
     * cannot be opened nothing changes.
     */
    method Write(p: Record, canOpen: bool)
      requires Valid()
      modifies this
      ensures Valid()
      ensures canOpen ==> present && records == old(records) + [p]
      ensures !canOpen ==> present == old(present) && records == old(records)
    {
      if !canOpen {
        return;
      }
      present := true;
      records := records + [p];
    }

    /**
     * `read_all_processes_from_backing_store`: the records in file order,
     * none when the file cannot be opened (absent or otherwise).
     */
    method ReadAll(canOpen: bool) returns (out: seq<Record>)
      requires Valid()
      ensures canOpen && present ==> out == records
      ensures !canOpen || !present ==> out == []
    {
      if !canOpen || !present {
        return [];
      }
      var i := 0;
      out := [];
      while i < |records|
        invariant 0 <= i <= |records| && out == records[..i]
      {
        out := out + [records[i]];
        i := i + 1;
      }
    }

    /**
     * `remove_process_from_backing_store`: the file is read; when that gives
     * no record, or the file cannot be reopened for writing, nothing changes;
     * otherwise it is rewritten with every record whose pid differs, in the
     * order they were stored.
     */
    method Remove(pid: int, canRead: bool, canWrite: bool)
      requires Valid()
      modifies this
      ensures Valid() && present == old(present)
      ensures old(present) && canRead && canWrite ==> records == Without(old(records), pid)
      ensures !(old(present) && canRead && canWrite) ==> records == old(records)
    {
      var arr := ReadAll(canRead);
      if |arr| == 0 {
        return;
      }
      if !canWrite {
        return;
      }
      var kept := [];
      var i := 0;
      while i < |arr|
        invariant 0 <= i <= |arr| && kept == Without(arr[..i], pid)
      {
        assert arr[..i + 1][..i] == arr[..i];
        if arr[i].pid != pid {
          kept := kept + [arr[i]];
        }
        i := i + 1;
      }
      assert arr[..|arr|] == arr;
      records := kept;
    }
  }
}
