/**
 Crash safety of the migration: whatever the step at which a run stops, placed rows
 are backed by a verified object and a matching record, the audit still passes, and
 a later run finishes in the same state as an uninterrupted one.
 */
module MigrationSafety {
  import opened Basics
  import opened Sums
  import opened Migration

  predicate Sound(w: World, cfg: Config) {
    AuditOk(w, cfg) && DistinctIds(w.rows)
  }

  function Switched(cfg: Config, row: Row): Row {
    row.(placement := NodePlacement(cfg, row.id))
  }

  /** Row `i` of the original world explains the new file `p`. */
  predicate Publishes(w: World, cfg: Config, i: nat, p: Path, f: File) {
    i < |w.rows| && Pending(w.rows[i]) && p == Target(cfg, w.rows[i].id) && f.length == w.rows[i].meta.length
      && w.rows[i].meta.digest == Some(f.digest)
  }

  predicate Registers(w: World, cfg: Config, i: nat, record: Record) {
    i < |w.rows| && Pending(w.rows[i]) && record == Expected(cfg, w.rows[i])
  }

  predicate RowsBetween(a: World, b: World, cfg: Config) {
    && |b.rows| == |a.rows|
    && forall i :: 0 <= i < |a.rows| ==>
         b.rows[i] == a.rows[i] || (Pending(a.rows[i]) && b.rows[i] == Switched(cfg, a.rows[i]))
  }

  ghost predicate FilesBetween(a: World, b: World, cfg: Config) {
    && (forall p :: p in a.fs ==> p in b.fs && b.fs[p] == a.fs[p])
    && (forall p :: p in b.fs && p !in a.fs ==> exists i :: Publishes(a, cfg, i, p, b.fs[p]))
  }

  ghost predicate RecordsBetween(a: World, b: World, cfg: Config) {
    && (forall id :: id in a.records ==> id in b.records && b.records[id] == a.records[id])
    && (forall id :: id in b.records && id !in a.records ==>
         b.records[id].id == id && exists i :: Registers(a, cfg, i, b.records[id]))
  }

  /** `b` adds to `a` only objects, records and switches that pending rows of `a` call for. */
  ghost predicate Between(a: World, b: World, cfg: Config) {
    RowsBetween(a, b, cfg) && FilesBetween(a, b, cfg) && RecordsBetween(a, b, cfg)
  }

  // ---------- one step ----------

  lemma ReadyBytesSame(a: seq<Row>, b: seq<Row>)
    requires |a| == |b| && forall i :: 0 <= i < |a| ==> a[i].status == b[i].status && a[i].meta == b[i].meta
    ensures ReadyBytes(a) == ReadyBytes(b)
    decreases a
  {
    if a != [] {
      ReadyBytesSame(a[1..], b[1..]);
    }
  }

  /** What publishing an object for row `i` leaves true of any row. */
  lemma ObjectKeepsRow(w: World, cfg: Config, i: nat, linkWorks: bool, j: nat)
    requires Sound(w, cfg) && i < |w.rows| && Pending(w.rows[i]) && j < |w.rows| && w.rows[j].status == Ready
    ensures EnsureObject(w, cfg, w.rows[i], linkWorks).Ok?
    ensures var w' := EnsureObject(w, cfg, w.rows[i], linkWorks).value;
      CandidateOk(w', cfg, w.rows[j]) && Verified(w'.fs, Target(cfg, w.rows[i].id), w.rows[i].meta)
  {
    assert CandidateOk(w, cfg, w.rows[i]) && CandidateOk(w, cfg, w.rows[j]);
    if j != i {
      assert w.rows[j].id != w.rows[i].id;
    }
  }

  lemma ObjectSafe(w: World, cfg: Config, i: nat, linkWorks: bool)
    requires Sound(w, cfg) && i < |w.rows| && Pending(w.rows[i])
    ensures EnsureObject(w, cfg, w.rows[i], linkWorks).Ok?
    ensures var w' := EnsureObject(w, cfg, w.rows[i], linkWorks).value;
      && Sound(w', cfg) && w'.rows == w.rows && w'.records == w.records
      && Verified(w'.fs, Target(cfg, w.rows[i].id), w.rows[i].meta) && Between(w, w', cfg)
  {
    ObjectKeepsRow(w, cfg, i, linkWorks, i);
    var w' := EnsureObject(w, cfg, w.rows[i], linkWorks).value;
    forall j | 0 <= j < |w'.rows| && w'.rows[j].status == Ready ensures CandidateOk(w', cfg, w'.rows[j]) {
      ObjectKeepsRow(w, cfg, i, linkWorks, j);
    }
    assert FilesBetween(w, w', cfg) by {
      forall p | p in w'.fs && p !in w.fs ensures exists k :: Publishes(w, cfg, k, p, w'.fs[p]) {
        assert Publishes(w, cfg, i, p, w'.fs[p]);
      }
    }
  }

  lemma RecordSafe(w: World, cfg: Config, i: nat)
    requires Sound(w, cfg) && i < |w.rows| && Pending(w.rows[i])
    ensures EnsureRecord(w, cfg, w.rows[i]).Ok?
    ensures var w' := EnsureRecord(w, cfg, w.rows[i]).value;
      && Sound(w', cfg) && w'.rows == w.rows && w'.fs == w.fs
      && w.rows[i].id in w'.records && w'.records[w.rows[i].id] == Expected(cfg, w.rows[i]) && Between(w, w', cfg)
  {
    assert CandidateOk(w, cfg, w.rows[i]);
    var w' := EnsureRecord(w, cfg, w.rows[i]).value;
    forall j | 0 <= j < |w'.rows| && w'.rows[j].status == Ready ensures CandidateOk(w', cfg, w'.rows[j]) {
      assert CandidateOk(w, cfg, w.rows[j]);
      if j != i {
        assert w.rows[j].id != w.rows[i].id;
      }
    }
    assert RecordsBetween(w, w', cfg) by {
      if w' != w {
        assert Registers(w, cfg, i, w'.records[w.rows[i].id]);
      }
    }
  }

  lemma SwitchSafe(w: World, cfg: Config, i: nat, audited: Row)
    requires Sound(w, cfg) && i < |w.rows| && w.rows[i] == audited && Pending(audited)
    requires Verified(w.fs, Target(cfg, audited.id), audited.meta)
    requires audited.id in w.records && w.records[audited.id] == Expected(cfg, audited)
    ensures SwitchControl(w, cfg, i, audited) == Ok(w.(rows := w.rows[i := Switched(cfg, audited)]))
    ensures var w' := SwitchControl(w, cfg, i, audited).value; Sound(w', cfg) && Between(w, w', cfg)
  {
    assert CandidateOk(w, cfg, audited);
    var w' := SwitchControl(w, cfg, i, audited).value;
    ReadyBytesSame(w.rows, w'.rows);
    forall j | 0 <= j < |w'.rows| && w'.rows[j].status == Ready ensures CandidateOk(w', cfg, w'.rows[j]) {
      if j != i {
        assert CandidateOk(w, cfg, w.rows[j]);
      }
    }
  }

  // ---------- between is transitive ----------

  lemma FilesChain(a: World, b: World, c: World, cfg: Config)
    requires RowsBetween(a, b, cfg) && FilesBetween(a, b, cfg) && FilesBetween(b, c, cfg)
    ensures FilesBetween(a, c, cfg)
  {
    forall p | p in c.fs && p !in a.fs ensures exists i :: Publishes(a, cfg, i, p, c.fs[p]) {
      if p in b.fs {
        var i: nat :| Publishes(a, cfg, i, p, b.fs[p]);
        assert Publishes(a, cfg, i, p, c.fs[p]);
      } else {
        var i: nat :| Publishes(b, cfg, i, p, c.fs[p]);
        assert b.rows[i] == a.rows[i];
        assert Publishes(a, cfg, i, p, c.fs[p]);
      }
    }
  }

  lemma RecordsChain(a: World, b: World, c: World, cfg: Config)
    requires RowsBetween(a, b, cfg) && RecordsBetween(a, b, cfg) && RecordsBetween(b, c, cfg)
    ensures RecordsBetween(a, c, cfg)
  {
    forall id | id in c.records && id !in a.records
      ensures c.records[id].id == id && exists i :: Registers(a, cfg, i, c.records[id])
    {
      if id in b.records {
        var i: nat :| Registers(a, cfg, i, b.records[id]);
        assert Registers(a, cfg, i, c.records[id]);
      } else {
        var i: nat :| Registers(b, cfg, i, c.records[id]);
        assert b.rows[i] == a.rows[i];
        assert Registers(a, cfg, i, c.records[id]);
      }
    }
  }

  lemma BetweenChain(a: World, b: World, c: World, cfg: Config)
    requires Between(a, b, cfg) && Between(b, c, cfg)
    ensures Between(a, c, cfg)
  {
    FilesChain(a, b, c, cfg);
    RecordsChain(a, b, c, cfg);
    hide FilesBetween, RecordsBetween;
    forall i | 0 <= i < |a.rows|
      ensures c.rows[i] == a.rows[i] || (Pending(a.rows[i]) && c.rows[i] == Switched(cfg, a.rows[i]))
    {
      assert b.rows[i] == a.rows[i] || (Pending(a.rows[i]) && b.rows[i] == Switched(cfg, a.rows[i]));
      assert c.rows[i] == b.rows[i] || (Pending(b.rows[i]) && c.rows[i] == Switched(cfg, b.rows[i]));
    }
  }

  lemma BetweenSelf(w: World, cfg: Config)
    ensures Between(w, w, cfg)
  {
  }

  // ---------- a row, and a run ----------

  /** The steps for one row never fail after a clean audit, and each prefix of them keeps the world sound. */
  lemma AdvanceSafe(w: World, cfg: Config, i: nat, linkWorks: bool, phases: nat)
    requires Sound(w, cfg) && i < |w.rows|
    ensures Advance(w, cfg, i, linkWorks, phases).Ok?
    ensures var w' := Advance(w, cfg, i, linkWorks, phases).value;
      && Sound(w', cfg) && Between(w, w', cfg)
      && w'.rows == (if phases >= 3 && Pending(w.rows[i]) then w.rows[i := Switched(cfg, w.rows[i])] else w.rows)
  {
    hide EnsureObject, EnsureRecord, SwitchControl, AuditOk, FilesBetween, RecordsBetween, RowsBetween;
    if phases == 0 || !Pending(w.rows[i]) {
      BetweenSelf(w, cfg);
    } else {
      ObjectSafe(w, cfg, i, linkWorks);
      var w1 := EnsureObject(w, cfg, w.rows[i], linkWorks).value;
      if phases > 1 {
        RecordSafe(w1, cfg, i);
        var w2 := EnsureRecord(w1, cfg, w.rows[i]).value;
        BetweenChain(w, w1, w2, cfg);
        if phases > 2 {
          SwitchSafe(w2, cfg, i, w.rows[i]);
          BetweenChain(w, w2, SwitchControl(w2, cfg, i, w.rows[i]).value, cfg);
        }
      }
    }
  }

  lemma {:induction false} ThroughSafe(w: World, cfg: Config, links: nat -> bool, upto: nat)
    requires Sound(w, cfg) && upto <= |w.rows|
    ensures Through(w, cfg, links, upto).Ok?
    ensures var w' := Through(w, cfg, links, upto).value;
      && Sound(w', cfg) && Between(w, w', cfg)
      && (forall j :: 0 <= j < upto ==> !Pending(w'.rows[j]))
      && (forall j :: upto <= j < |w.rows| ==> w'.rows[j] == w.rows[j])
    decreases upto
  {
    hide Advance, Sound, FilesBetween, RecordsBetween;
    if upto == 0 {
      BetweenSelf(w, cfg);
    } else {
      ThroughSafe(w, cfg, links, upto - 1);
      var w1 := Through(w, cfg, links, upto - 1).value;
      AdvanceSafe(w1, cfg, upto - 1, links(upto - 1), 3);
      BetweenChain(w, w1, Through(w, cfg, links, upto).value, cfg);
    }
  }

  /** Every row marked as placed on the node has a verified object and the matching record. */
  ghost predicate PlacedRowsBacked(w: World, cfg: Config) {
    forall i :: 0 <= i < |w.rows| && w.rows[i].status == Ready && w.rows[i].placement.kind == Node ==>
      PlacedOk(w, cfg, w.rows[i])
  }

  /**
   Stop an apply run after any step: it has not failed, placed rows are backed, and
   the audit of a rerun passes again.
   */
  lemma StoppedRunIsSafe(w: World, cfg: Config, links: nat -> bool, stop: Stop)
    requires DistinctIds(w.rows) && ValidStop(w, stop) && AuditOk(w, cfg)
    ensures ApplyUntil(w, cfg, links, stop).Ok?
    ensures var w' := ApplyUntil(w, cfg, links, stop).value;
      Sound(w', cfg) && Between(w, w', cfg) && PlacedRowsBacked(w', cfg)
  {
    hide Advance, Through, AuditOk, FilesBetween, RecordsBetween;
    ThroughSafe(w, cfg, links, stop.row);
    var w1 := Through(w, cfg, links, stop.row).value;
    AdvanceSafe(w1, cfg, stop.row, links(stop.row), stop.phases);
    var w' := ApplyUntil(w, cfg, links, stop).value;
    BetweenChain(w, w1, w', cfg);
    SoundIsBacked(w', cfg);
  }

  lemma SoundIsBacked(w: World, cfg: Config)
    requires Sound(w, cfg)
    ensures PlacedRowsBacked(w, cfg)
  {
    forall i | 0 <= i < |w.rows| && w.rows[i].status == Ready && w.rows[i].placement.kind == Node
      ensures PlacedOk(w, cfg, w.rows[i])
    {
      assert CandidateOk(w, cfg, w.rows[i]);
    }
  }

  // ---------- reruns ----------

  datatype Attempt = Attempt(links: nat -> bool, stop: Stop)

  /** Any number of stopped runs, one after the other. */
  function Attempts(w: World, cfg: Config, runs: seq<Attempt>): World {
    if runs == [] then w else
      var before := Attempts(w, cfg, runs[..|runs| - 1]);
      var last := runs[|runs| - 1];
      if !ValidStop(before, last.stop) then before else
        match ApplyUntil(before, cfg, last.links, last.stop)
        case Err(_) => before
        case Ok(after) => after
  }

  /** A world that fails its audit survives any number of runs untouched. */
  lemma {:induction false} FailedAuditWritesNothing(w: World, cfg: Config, runs: seq<Attempt>)
    requires !AuditOk(w, cfg)
    ensures Attempts(w, cfg, runs) == w
    decreases runs
  {
    if runs != [] {
      FailedAuditWritesNothing(w, cfg, runs[..|runs| - 1]);
    }
  }

  lemma {:induction false} AttemptsSafe(w: World, cfg: Config, runs: seq<Attempt>)
    requires Sound(w, cfg)
    ensures Sound(Attempts(w, cfg, runs), cfg) && Between(w, Attempts(w, cfg, runs), cfg)
    ensures PlacedRowsBacked(Attempts(w, cfg, runs), cfg)
    decreases runs
  {
    hide ApplyUntil, AuditOk, FilesBetween, RecordsBetween, RowsBetween, PlacedRowsBacked;
    if runs == [] {
      BetweenSelf(w, cfg);
      SoundIsBacked(w, cfg);
    } else {
      var before := Attempts(w, cfg, runs[..|runs| - 1]);
      AttemptsSafe(w, cfg, runs[..|runs| - 1]);
      var last := runs[|runs| - 1];
      if ValidStop(before, last.stop) {
        StoppedRunIsSafe(before, cfg, last.links, last.stop);
        BetweenChain(w, before, Attempts(w, cfg, runs), cfg);
      }
    }
  }

  /** Equal up to file identity, which hard links and copies choose differently. */
  ghost predicate SameOutcome(a: World, b: World) {
    && a.rows == b.rows && a.records == b.records && a.fs.Keys == b.fs.Keys
    && forall p :: p in a.fs ==> a.fs[p].length == b.fs[p].length && a.fs[p].digest == b.fs[p].digest
  }

  ghost predicate Finished(w: World) {
    forall i :: 0 <= i < |w.rows| ==> !Pending(w.rows[i])
  }

  lemma FinishedFiles(w: World, a: World, b: World, cfg: Config, p: Path)
    requires Between(w, a, cfg) && Between(w, b, cfg) && Sound(b, cfg) && Finished(b) && DistinctIds(w.rows)
    requires p in a.fs
    ensures p in b.fs && a.fs[p].length == b.fs[p].length && a.fs[p].digest == b.fs[p].digest
  {
    hide RecordsBetween, Sound, RowsBetween;
    if p !in w.fs {
      var i: nat :| Publishes(w, cfg, i, p, a.fs[p]);
      FinishedRow(w, b, cfg, i);
    }
  }

  lemma FinishedRecords(w: World, a: World, b: World, cfg: Config, id: nat)
    requires Between(w, a, cfg) && Between(w, b, cfg) && Sound(b, cfg) && Finished(b) && id in a.records
    ensures id in b.records && a.records[id] == b.records[id]
  {
    hide FilesBetween, Sound, RowsBetween;
    if id !in w.records {
      var i: nat :| Registers(w, cfg, i, a.records[id]);
      FinishedRow(w, b, cfg, i);
    }
  }

  /** Two finished worlds on the way from the same start are the same world. */
  lemma FinishedAgree(w: World, a: World, b: World, cfg: Config)
    requires Between(w, a, cfg) && Between(w, b, cfg) && Sound(a, cfg) && Sound(b, cfg) && Finished(a) && Finished(b)
    requires DistinctIds(w.rows)
    ensures SameOutcome(a, b)
  {
    hide FilesBetween, RecordsBetween, AuditOk, RowsBetween;
    FinishedRows(w, a, b, cfg);
    forall p | p in a.fs || p in b.fs
      ensures p in a.fs && p in b.fs && a.fs[p].length == b.fs[p].length && a.fs[p].digest == b.fs[p].digest
    {
      if p in a.fs {
        FinishedFiles(w, a, b, cfg, p);
      } else {
        FinishedFiles(w, b, a, cfg, p);
      }
    }
    forall id | id in a.records || id in b.records
      ensures id in a.records && id in b.records && a.records[id] == b.records[id]
    {
      if id in a.records {
        FinishedRecords(w, a, b, cfg, id);
      } else {
        FinishedRecords(w, b, a, cfg, id);
      }
    }
    assert a.records == b.records;
  }

  lemma FinishedRows(w: World, a: World, b: World, cfg: Config)
    requires RowsBetween(w, a, cfg) && RowsBetween(w, b, cfg) && Finished(a) && Finished(b)
    ensures a.rows == b.rows
  {
    forall i | 0 <= i < |w.rows| ensures a.rows[i] == b.rows[i] {
      assert !Pending(a.rows[i]) && !Pending(b.rows[i]);
    }
  }

  /** A row that was pending is placed and backed once nothing is pending. */
  lemma FinishedRow(w: World, b: World, cfg: Config, i: nat)
    requires RowsBetween(w, b, cfg) && Sound(b, cfg) && Finished(b) && i < |w.rows| && Pending(w.rows[i])
    ensures b.rows[i] == Switched(cfg, w.rows[i]) && PlacedOk(b, cfg, b.rows[i])
  {
    assert !Pending(b.rows[i]);
    assert b.rows[i].status == Ready;
    assert CandidateOk(b, cfg, b.rows[i]);
  }

  /**
   After any number of runs stopped anywhere, one run to the end reaches the state an
   uninterrupted run would have reached, whichever links worked on the way.
   */
  lemma RerunConverges(w: World, cfg: Config, runs: seq<Attempt>, links: nat -> bool, links': nat -> bool)
    requires Sound(w, cfg)
    ensures ApplyAll(Attempts(w, cfg, runs), cfg, links).Ok? && ApplyAll(w, cfg, links').Ok?
    ensures SameOutcome(ApplyAll(Attempts(w, cfg, runs), cfg, links).value, ApplyAll(w, cfg, links').value)
  {
    hide Through, AuditOk, FilesBetween, RecordsBetween, RowsBetween, SameOutcome, Attempts, PlacedRowsBacked;
    var later := Attempts(w, cfg, runs);
    AttemptsSafe(w, cfg, runs);
    ThroughSafe(later, cfg, links, |later.rows|);
    ThroughSafe(w, cfg, links', |w.rows|);
    var a := ApplyAll(later, cfg, links).value;
    var b := ApplyAll(w, cfg, links').value;
    BetweenChain(w, later, a, cfg);
    SameLength(w, a, cfg);
    SameLength(w, b, cfg);
    FinishedAgree(w, a, b, cfg);
  }

  lemma SameLength(w: World, a: World, cfg: Config)
    requires Between(w, a, cfg)
    ensures |a.rows| == |w.rows|
  {
  }

  // ---------- imports ----------

  function PendingCount(rows: seq<Row>): nat {
    if rows == [] then 0 else (if Pending(rows[0]) then 1 else 0) + PendingCount(rows[1..])
  }

  lemma {:induction false} PendingUpdate(rows: seq<Row>, i: nat, row: Row)
    requires i < |rows|
    ensures PendingCount(rows[i := row])
      == PendingCount(rows) - (if Pending(rows[i]) then 1 else 0) + if Pending(row) then 1 else 0
    decreases rows
  {
    if i > 0 {
      assert rows[i := row][1..] == rows[1..][i - 1 := row];
      PendingUpdate(rows[1..], i - 1, row);
    } else {
      assert rows[i := row][1..] == rows[1..];
    }
  }

  lemma {:induction false} NonePending(rows: seq<Row>)
    requires forall i :: 0 <= i < |rows| ==> !Pending(rows[i])
    ensures PendingCount(rows) == 0
    decreases rows
  {
    if rows != [] {
      NonePending(rows[1..]);
    }
  }

  /** Rows switched by the steps of a run for row `i`. */
  function ImportsAt(w: World, i: nat, phases: nat): nat
    requires i < |w.rows|
  {
    if phases >= 3 && Pending(w.rows[i]) then 1 else 0
  }

  function ImportsThrough(w: World, cfg: Config, links: nat -> bool, upto: nat): nat
    requires upto <= |w.rows|
  {
    if upto == 0 then 0 else
      ImportsThrough(w, cfg, links, upto - 1) +
      match Through(w, cfg, links, upto - 1)
      case Err(_) => 0
      case Ok(w') => ImportsAt(w', upto - 1, 3)
  }

  lemma {:induction false} ImportsThroughCount(w: World, cfg: Config, links: nat -> bool, upto: nat)
    requires Sound(w, cfg) && upto <= |w.rows|
    ensures Through(w, cfg, links, upto).Ok?
    ensures ImportsThrough(w, cfg, links, upto)
      == PendingCount(w.rows) - PendingCount(Through(w, cfg, links, upto).value.rows)
    decreases upto
  {
    hide Advance, Sound, Between;
    ThroughSafe(w, cfg, links, upto);
    if upto > 0 {
      ThroughSafe(w, cfg, links, upto - 1);
      ImportsThroughCount(w, cfg, links, upto - 1);
      var w1 := Through(w, cfg, links, upto - 1).value;
      AdvanceSafe(w1, cfg, upto - 1, links(upto - 1), 3);
      PendingUpdate(w1.rows, upto - 1, Switched(cfg, w1.rows[upto - 1]));
    }
  }

  /** Rows a stopped run has switched. */
  function Imports(w: World, cfg: Config, a: Attempt): nat
    requires ValidStop(w, a.stop)
  {
    if !AuditOk(w, cfg) then 0 else
      ImportsThrough(w, cfg, a.links, a.stop.row) +
      match Through(w, cfg, a.links, a.stop.row)
      case Err(_) => 0
      case Ok(w') => ImportsAt(w', a.stop.row, a.stop.phases)
  }

  lemma ImportsCount(w: World, cfg: Config, a: Attempt)
    requires Sound(w, cfg) && ValidStop(w, a.stop)
    ensures ApplyUntil(w, cfg, a.links, a.stop).Ok?
    ensures Imports(w, cfg, a) == PendingCount(w.rows) - PendingCount(ApplyUntil(w, cfg, a.links, a.stop).value.rows)
  {
    hide Advance, Between, CandidateOk, ReadyBytes;
    ImportsThroughCount(w, cfg, a.links, a.stop.row);
    ThroughSafe(w, cfg, a.links, a.stop.row);
    var w1 := Through(w, cfg, a.links, a.stop.row).value;
    AdvanceSafe(w1, cfg, a.stop.row, a.links(a.stop.row), a.stop.phases);
    PendingUpdate(w1.rows, a.stop.row, Switched(cfg, w1.rows[a.stop.row]));
  }

  function AllImports(w: World, cfg: Config, runs: seq<Attempt>): nat {
    if runs == [] then 0 else
      var before := Attempts(w, cfg, runs[..|runs| - 1]);
      AllImports(w, cfg, runs[..|runs| - 1]) + if ValidStop(before, runs[|runs| - 1].stop)
        then Imports(before, cfg, runs[|runs| - 1]) else 0
  }

  lemma {:induction false} AllImportsCount(w: World, cfg: Config, runs: seq<Attempt>)
    requires Sound(w, cfg)
    ensures AllImports(w, cfg, runs) == PendingCount(w.rows) - PendingCount(Attempts(w, cfg, runs).rows)
    decreases runs
  {
    hide ApplyUntil, Sound, Imports;
    if runs != [] {
      var front, last := runs[..|runs| - 1], runs[|runs| - 1];
      AllImportsCount(w, cfg, front);
      AttemptsSafe(w, cfg, front);
      if ValidStop(Attempts(w, cfg, front), last.stop) {
        ImportsCount(Attempts(w, cfg, front), cfg, last);
      }
    }
  }

  /** Imports summed over every stopped run and the last full one are the rows that were local at first. */
  lemma ImportsAddUp(w: World, cfg: Config, runs: seq<Attempt>, links: nat -> bool)
    requires Sound(w, cfg)
    ensures |Attempts(w, cfg, runs).rows| == |w.rows|
    ensures AllImports(w, cfg, runs) + ImportsThrough(Attempts(w, cfg, runs), cfg, links, |w.rows|)
      == PendingCount(w.rows)
  {
    hide Attempts, AllImports, ImportsThrough, Through, Sound, FilesBetween, RecordsBetween, PlacedRowsBacked;
    var later := Attempts(w, cfg, runs);
    AllImportsCount(w, cfg, runs);
    AttemptsSafe(w, cfg, runs);
    SameLength(w, later, cfg);
    ImportsThroughCount(later, cfg, links, |later.rows|);
    ThroughSafe(later, cfg, links, |later.rows|);
    NonePending(Through(later, cfg, links, |later.rows|).value.rows);
  }
}
