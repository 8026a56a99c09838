/**
 The storage node's rotating log. File 0 is the log being appended to and file `i` its
 `i`-th backup; any file operation may fail, and the writer then carries on as it can.
 */
module LogRotation {
  import opened Sums

  type Files = map<nat, string>

  /** Which operation of one shift fails, if any. */
  datatype Fault = NoFault | SourceCheck | TargetCheck | Removal | Renaming

  datatype Shifted = Shifted(files: Files, failed: bool)

  function FaultAt(faults: map<nat, Fault>, index: nat): Fault {
    if index in faults then faults[index] else NoFault
  }

  function Moved(files: Files, index: nat): Files
    requires index > 0 && index - 1 in files
  {
    files[index := files[index - 1]] - {index - 1}
  }

  /** One shift of file `index - 1` to `index`; the target is removed first. */
  function ShiftOne(files: Files, index: nat, fault: Fault): Shifted
    requires index > 0
  {
    if fault == SourceCheck then Shifted(files, true)
    else if index - 1 !in files then Shifted(files, false)
    else if fault == TargetCheck || (fault == Removal && index in files) then Shifted(files, true)
    else if fault == Renaming then Shifted(files - {index}, true)
    else Shifted(Moved(files - {index}, index), false)
  }

  /** All shifts from `index` down, stopping at the first failure. */
  function ShiftFrom(files: Files, index: nat, faults: map<nat, Fault>): Shifted
    decreases index
  {
    if index == 0 then Shifted(files, false) else
      var one := ShiftOne(files, index, FaultAt(faults, index));
      if one.failed then one else ShiftFrom(one.files, index - 1, faults)
  }

  function At(files: Files, i: nat): string {
    if i in files then files[i] else ""
  }

  /** The files up to backup `n`, oldest first. */
  function Log(files: Files, n: nat): string {
    if n == 0 then At(files, 0) else At(files, n) + Log(files, n - 1)
  }

  predicate IsSuffix(a: string, b: string) {
    |a| <= |b| && b[|b| - |a|..] == a
  }

  predicate InRange(files: Files, n: nat) {
    forall i :: i in files ==> i <= n
  }

  predicate Bounded(files: Files, bound: int) {
    forall i :: i in files ==> |files[i]| <= bound
  }

  // ---------- shifting keeps the order ----------

  lemma {:induction false} LogDependsOn(a: Files, b: Files, n: nat)
    requires forall i :: 0 <= i <= n ==> At(a, i) == At(b, i)
    ensures Log(a, n) == Log(b, n)
  {
    if n > 0 {
      LogDependsOn(a, b, n - 1);
    }
  }

  /** Renaming a file to the free slot above it leaves the log as it was. */
  lemma {:induction false} MoveKeepsLog(files: Files, index: nat, n: nat)
    requires 0 < index <= n && index - 1 in files && index !in files
    ensures Log(Moved(files, index), n) == Log(files, n)
  {
    var moved := Moved(files, index);
    if n > index {
      MoveKeepsLog(files, index, n - 1);
    } else if index == 1 {
      assert At(files, 1) + At(files, 0) == At(moved, 1) + At(moved, 0);
    } else {
      LogDependsOn(files, moved, n - 2);
      assert At(files, n) + (At(files, n - 1) + Log(files, n - 2))
        == At(moved, n) + (At(moved, n - 1) + Log(moved, n - 2));
    }
  }

  /** Below a free slot nothing is removed: every shift is a pure renaming. */
  lemma {:induction false} ShiftBelowFreeSlot(files: Files, index: nat, n: nat, faults: map<nat, Fault>, bound: int)
    requires index <= n && index !in files && InRange(files, n) && Bounded(files, bound)
    ensures var r := ShiftFrom(files, index, faults);
      && Log(r.files, n) == Log(files, n) && InRange(r.files, n) && Bounded(r.files, bound)
      && (!r.failed ==> 0 !in r.files)
    decreases index
  {
    if index > 0 {
      hide Log;
      var fault := FaultAt(faults, index);
      var one := ShiftOne(files, index, fault);
      assert files - {index} == files;
      if !one.failed {
        if index - 1 in files {
          MoveKeepsLog(files, index, n);
        }
        ShiftBelowFreeSlot(one.files, index - 1, n, faults, bound);
      }
    }
  }

  /**
   A whole shift, failing anywhere or not at all, keeps every byte in order except that the
   oldest backup may go; when it does not fail, the current log has moved away.
   */
  lemma ShiftDropsOnlyTheOldest(files: Files, n: nat, faults: map<nat, Fault>, bound: int)
    requires n > 0 && InRange(files, n) && Bounded(files, bound)
    ensures var r := ShiftFrom(files, n, faults);
      && (Log(r.files, n) == Log(files, n) || (n - 1 in files && Log(r.files, n) == Log(files, n - 1)))
      && InRange(r.files, n) && Bounded(r.files, bound)
      && (!r.failed ==> 0 !in r.files)
  {
    var rest := files - {n};
    LogDependsOn(files, rest, n - 1);
    assert Log(rest, n) == Log(rest, n - 1);
    if n - 1 !in files {
      if FaultAt(faults, n) != SourceCheck {
        ShiftBelowFreeSlot(files, n - 1, n, faults, bound);
      }
    } else if !ShiftOne(files, n, FaultAt(faults, n)).failed {
      MoveKeepsLog(rest, n, n);
      hide Log;
      ShiftBelowFreeSlot(Moved(rest, n), n - 1, n, faults, bound);
    }
  }

  lemma SuffixOfSuffix(a: string, b: string, c: string)
    requires IsSuffix(a, b) && IsSuffix(b, c)
    ensures IsSuffix(a, c)
  {
    assert a == c[|c| - |b|..][|b| - |a|..];
  }

  lemma ShiftKeepsSuffix(files: Files, n: nat, faults: map<nat, Fault>, bound: int, written: string)
    requires n > 0 && InRange(files, n) && Bounded(files, bound) && IsSuffix(Log(files, n), written)
    ensures IsSuffix(Log(ShiftFrom(files, n, faults).files, n), written)
  {
    ShiftDropsOnlyTheOldest(files, n, faults, bound);
    hide ShiftFrom;
    SuffixOfSuffix(Log(files, n - 1), Log(files, n), written);
  }

  lemma {:induction false} LogAppend(files: Files, n: nat, text: string)
    ensures Log(files[0 := At(files, 0) + text], n) == Log(files, n) + text
  {
    if n > 0 {
      LogAppend(files, n - 1, text);
      var longer := files[0 := At(files, 0) + text];
      assert At(longer, n) == At(files, n);
      assert At(files, n) + (Log(files, n - 1) + text) == Log(files, n) + text;
    }
  }

  // ---------- the writer ----------

  datatype Opening = Opened | RefusedEarly | RefusedAfterCreating

  /** What the file system does during one write. */
  datatype Weather = Weather(
    opening: Opening, syncFails: bool, closeFails: bool, faults: map<nat, Fault>, reopening: Opening,
    record: string, recordWritten: nat, payloadWritten: nat)

  function Prefix(s: string, n: nat): string {
    if n <= |s| then s[..n] else s
  }

  class Writer {
    const maxBytes: int
    const maxBackups: nat
    var files: Files
    var isOpen: bool
    var size: int
    var closed: bool
    /** Every byte the log ever took, and a bound on each file while no rotation has failed. */
    ghost var written: string
    ghost var bound: int
    ghost var intact: bool

    ghost predicate Valid()
      reads this
    {
      && maxBytes > 0 && maxBackups > 0 && maxBytes <= bound
      && (isOpen ==> 0 in files && size == |files[0]|) && (closed ==> !isOpen)
      && InRange(files, maxBackups)
      && IsSuffix(Log(files, maxBackups), written)
      && (intact ==> Bounded(files, bound))
    }

    constructor (existing: Files, maxBytes: int, maxBackups: nat)
      requires maxBytes > 0 && 1 <= maxBackups && InRange(existing, maxBackups)
      ensures Valid() && files == existing && written == Log(existing, maxBackups) && intact && !isOpen && !closed
      ensures bound == Max(maxBytes, Largest(existing))
      ensures this.maxBytes == maxBytes && this.maxBackups == maxBackups
    {
      this.maxBytes, this.maxBackups := maxBytes, maxBackups;
      files, isOpen, size, closed := existing, false, 0, false;
      written, bound, intact := Log(existing, maxBackups), Max(maxBytes, Largest(existing)), true;
    }

    /** Opening for append creates a missing file and never changes an existing one. */
    method OpenBase(opening: Opening) returns (ok: bool)
      requires Valid() && !isOpen && !closed
      modifies this`files, this`isOpen, this`size
      ensures Valid() && ok == isOpen == (opening == Opened)
      ensures Log(files, maxBackups) == Log(old(files), maxBackups)
      ensures Log(files, maxBackups - 1) == Log(old(files), maxBackups - 1)
      ensures At(files, 0) == At(old(files), 0)
    {
      if opening == RefusedEarly {
        return false;
      }
      if 0 !in files {
        files := files[0 := ""];
        LogDependsOn(files, old(files), maxBackups);
        LogDependsOn(files, old(files), maxBackups - 1);
      }
      if opening == RefusedAfterCreating {
        return false;
      }
      isOpen, size := true, |files[0]|;
      return true;
    }

    method ShiftBackups(faults: map<nat, Fault>) returns (ok: bool)
      requires Valid() && !isOpen
      modifies this`files
      ensures Shifted(files, !ok) == ShiftFrom(old(files), maxBackups, faults)
    {
      var index := maxBackups;
      while index >= 1
        invariant 0 <= index <= maxBackups
        invariant ShiftFrom(files, index, faults) == ShiftFrom(old(files), maxBackups, faults)
      {
        var fault := FaultAt(faults, index);
        if fault == SourceCheck {
          return false;
        }
        if index - 1 in files {
          if fault == TargetCheck {
            return false;
          }
          if index in files {
            if fault == Removal {
              return false;
            }
          }
          files := files - {index};
          if fault == Renaming {
            return false;
          }
          files := Moved(files, index);
        }
        index := index - 1;
      }
      return true;
    }

    /** Moves the log away, or keeps what could not be moved; bytes leave only with the oldest backup. */
    method Rotate(w: Weather) returns (ok: bool)
      requires Valid() && isOpen
      modifies this`files, this`isOpen, this`size
      ensures Valid()
      ensures (ok ==> isOpen && At(files, 0) == "") && (w.reopening == Opened ==> isOpen)
      ensures Log(files, maxBackups) == Log(old(files), maxBackups)
        || Log(files, maxBackups) == Log(old(files), maxBackups - 1)
    {
      if w.syncFails {
        return false;
      }
      isOpen := false;
      if w.closeFails {
        var reopened := OpenBase(w.reopening);
        return false;
      }
      ghost var before := files;
      ghost var largest := Largest(before);
      ShiftDropsOnlyTheOldest(before, maxBackups, w.faults, largest);
      ShiftKeepsSuffix(before, maxBackups, w.faults, largest, written);
      if intact {
        ShiftDropsOnlyTheOldest(before, maxBackups, w.faults, bound);
      }
      hide ShiftFrom, Log;
      var shifted := ShiftBackups(w.faults);
      var reopened := OpenBase(w.reopening);
      return shifted && reopened;
    }

    method Append(text: string)
      requires Valid() && isOpen
      modifies this`files, this`size, this`written, this`intact
      ensures Valid() && isOpen && files == old(files)[0 := old(files)[0] + text] && written == old(written) + text
      ensures size == old(size) + |text| && Log(files, maxBackups) == Log(old(files), maxBackups) + text
      ensures intact == (old(intact) && old(size) + |text| <= bound)
    {
      LogAppend(files, maxBackups, text);
      hide Log;
      intact := intact && size + |text| <= bound;
      files := files[0 := files[0] + text];
      written := written + text;
      size := size + |text|;
    }

    /** Rotates when the payload does not fit, and notes a failed rotation in the log. */
    method MakeRoom(length: nat, w: Weather) returns (ghost troubled: bool, ghost note: string)
      requires Valid() && isOpen && length <= bound
      modifies this`files, this`isOpen, this`size, this`written, this`intact
      ensures Valid() && (!troubled || w.reopening == Opened ==> isOpen)
      ensures note == if troubled && isOpen then Prefix(w.record, w.recordWritten) else ""
      ensures written == old(written) + note && intact == (old(intact) && !troubled)
      ensures Log(files, maxBackups) == Log(old(files), maxBackups) + note
        || (!Fits(old(size), length) && Log(files, maxBackups) == Log(old(files), maxBackups - 1) + note)
      ensures !troubled ==> size + length <= bound
    {
      hide Log;
      troubled, note := false, "";
      ghost var was := Log(files, maxBackups);
      assert was + "" == was && written + "" == written;
      if size > 0 && size + length > maxBytes {
        ghost var trimmed := Log(files, maxBackups - 1);
        assert trimmed + "" == trimmed;
        var rotated := Rotate(w);
        if !rotated {
          troubled, intact := true, false;
          if isOpen {
            var record := Prefix(w.record, w.recordWritten);
            note := record;
            Append(record);
          }
        }
      }
    }

    /**
     Reports how many bytes of the payload the log took. A failed rotation is noted in the log
     and never costs the payload; bytes leave the disk only with the oldest backup, and only
     when the payload does not fit; no file outgrows the bound unless a rotation failed.
     */
    method Write(payload: string, w: Weather) returns (n: nat, ok: bool, ghost troubled: bool, ghost note: string)
      requires Valid()
      modifies this
      ensures Valid() && closed == old(closed) && n <= |payload|
      ensures note == if troubled && isOpen then Prefix(w.record, w.recordWritten) else ""
      ensures written == old(written) + note + payload[..n]
      ensures Log(files, maxBackups) == Log(old(files), maxBackups) + note + payload[..n]
        || (!(old(isOpen) && Fits(old(size), |payload|))
             && Log(files, maxBackups) == Log(old(files), maxBackups - 1) + note + payload[..n])
      ensures old(closed) ==> n == 0 && !ok && files == old(files)
      ensures !old(closed) && w.opening == Opened && (troubled ==> w.reopening == Opened) ==>
        n == |Prefix(payload, w.payloadWritten)| && ok == (n == |payload|)
      ensures bound == Max(old(bound), |payload|) && intact == (old(intact) && !troubled)
    {
      hide Log;
      ghost var was := Log(files, maxBackups);
      bound, troubled, note, n, ok := Max(bound, |payload|), false, "", 0, false;
      assert was + "" + payload[..0] == was && written + "" + payload[..0] == written;
      if closed {
        return;
      }
      if !isOpen {
        var available := OpenBase(w.opening);
        if !available {
          return;
        }
      }
      troubled, note := MakeRoom(|payload|, w);
      if !isOpen {
        assert Log(files, maxBackups) + payload[..0] == Log(files, maxBackups) && written + payload[..0] == written;
        return;
      }
      var taken := Prefix(payload, w.payloadWritten);
      Append(taken);
      n, ok := |taken|, |taken| == |payload|;
      assert payload[..n] == taken;
    }

    predicate Fits(used: int, more: int)
      reads this
    {
      used <= 0 || used + more <= maxBytes
    }

    method Close()
      requires Valid()
      modifies this`closed, this`isOpen
      ensures Valid() && closed && !isOpen
    {
      if !closed {
        closed, isOpen := true, false;
      }
    }
  }

  /** Refuses impossible limits and a base file that cannot be opened; existing files are taken over. */
  method NewWriter(existing: Files, maxBytes: int, maxBackups: int, opening: Opening) returns (writer: Writer?)
    requires maxBackups >= 0 ==> InRange(existing, maxBackups)
    ensures writer != null <==> maxBytes > 0 && 1 <= maxBackups <= 100 && opening == Opened
    ensures writer != null ==> fresh(writer) && writer.Valid() && writer.isOpen && writer.intact
    ensures writer != null ==> writer.maxBytes == maxBytes && writer.bound == Max(maxBytes, Largest(existing))
    ensures writer != null ==>
      Log(writer.files, writer.maxBackups) == Log(existing, writer.maxBackups) == writer.written
  {
    hide Log, IsLargest, Bounded, IsSuffix;
    if maxBytes <= 0 || maxBackups < 1 || maxBackups > 100 {
      return null;
    }
    writer := new Writer(existing, maxBytes, maxBackups);
    var ok := writer.OpenBase(opening);
    if !ok {
      writer := null;
    }
  }

  predicate IsLargest(files: Files, m: int) {
    Bounded(files, m) && (if files == map[] then m == 0 else exists i :: i in files && |files[i]| == m)
  }

  /** The size of the largest file, 0 without files. */
  ghost function Largest(files: Files): (m: int)
    ensures IsLargest(files, m)
  {
    LargestExists(files);
    var m :| IsLargest(files, m);
    m
  }

  lemma {:induction false} LargestExists(files: Files)
    ensures exists m :: IsLargest(files, m)
    decreases |files|
  {
    if files == map[] {
      assert IsLargest(files, 0);
    } else {
      var k :| k in files;
      var rest := files - {k};
      LargestExists(rest);
      var m :| IsLargest(rest, m);
      var largest := Max(m, |files[k]|);
      forall i | i in files ensures |files[i]| <= largest {
        assert i != k ==> rest[i] == files[i];
      }
      if largest == |files[k]| {
        assert IsLargest(files, largest);
      } else {
        var i :| i in rest && |rest[i]| == m;
        assert i in files && |files[i]| == largest;
        assert IsLargest(files, largest);
      }
    }
  }
}
