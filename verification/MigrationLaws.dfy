/** What a migration writes: the switched rows, the node's records and the published objects, field by field. */
module MigrationLaws {
  import opened Basics
  import opened Sums
  import opened Migration
  import opened MigrationSafety

  /** The row names this node and its own id as the key there, in the first placement version, and no local path. */
  predicate OnNode(row: Row, node: nat) {
    && row.placement.kind == Node && row.placement.node == Some(node) && row.placement.key == Some(row.id)
    && row.placement.version == 1 && row.placement.temp == None && row.placement.blob == None
  }

  /** The record describes a complete, clean object in the target directory with the row's metadata. */
  predicate Describes(record: Record, row: Row, dir: nat) {
    && record.id == row.id && record.path == Path(dir, row.id) && record.status == CLEAN && record.lease == 0
    && record.meta.length == row.meta.length == record.meta.offset && record.meta.digest == row.meta.digest
    && record.meta.name == row.meta.name && record.meta.contentType == row.meta.contentType
    && record.meta.tokenHash == row.meta.tokenHash && record.meta.expires == row.meta.expires
    && record.meta.scanDetail == row.meta.scanDetail
  }

  /** The file is there with the length and the digest of the row. */
  predicate Holds(fs: map<Path, File>, p: Path, row: Row) {
    p in fs && fs[p].length == row.meta.length && row.meta.digest == Some(fs[p].digest)
  }

  // ---------- the audit ----------

  /** Complete, with a known digest. */
  predicate Complete(row: Row) {
    row.meta.offset == row.meta.length && row.meta.length >= 0 && row.meta.digest.Some?
  }

  /** Placed on this node before, and still backed by its object and its record. */
  predicate StillPlaced(w: World, cfg: Config, row: Row) {
    && OnNode(row, cfg.node) && Holds(w.fs, Path(cfg.targetDir, row.id), row)
    && row.id in w.records && Describes(w.records[row.id], row, cfg.targetDir)
  }

  /** Local, with its content under its own name in a source directory, and nothing foreign in its way. */
  predicate Movable(w: World, cfg: Config, row: Row) {
    && row.placement.kind == Local && row.placement.node == None && row.placement.key == None
    && row.placement.version == 1 && row.placement.blob.Some?
    && row.placement.blob.value.id == row.id && row.placement.blob.value.dir in cfg.sourceDirs
    && Holds(w.fs, row.placement.blob.value, row)
    && (Path(cfg.targetDir, row.id) in w.fs ==> Holds(w.fs, Path(cfg.targetDir, row.id), row))
    && (Path(cfg.targetDir, row.id) in w.fs && cfg.copyOnly ==>
          && row.placement.blob.value != Path(cfg.targetDir, row.id)
          && w.fs[row.placement.blob.value].inode != w.fs[Path(cfg.targetDir, row.id)].inode)
    && (row.id in w.records ==> Describes(w.records[row.id], row, cfg.targetDir))
  }

  function LengthAt(rows: seq<Row>): nat -> int {
    (i: nat) => if i < |rows| && rows[i].status == Ready then rows[i].meta.length else 0
  }

  function Indices(n: nat): (s: set<nat>)
    ensures forall i: nat :: i in s <==> i < n
  {
    if n == 0 then {} else Indices(n - 1) + {n - 1}
  }

  /** The bytes of all ready rows. */
  lemma {:induction false} ReadyBytesAddUp(rows: seq<Row>)
    ensures ReadyBytes(rows) == Sum(Indices(|rows|), LengthAt(rows))
    decreases rows
  {
    if rows != [] {
      var front, n := rows[..|rows| - 1], |rows| - 1;
      ReadyBytesAddUp(front);
      ReadyBytesSplit(front, rows[n]);
      assert rows == front + [rows[n]];
      SumExtract(Indices(|rows|), n, LengthAt(rows));
      assert Indices(|rows|) - {n} == Indices(n);
      SumCongruent(Indices(n), LengthAt(rows), LengthAt(front));
    }
  }

  lemma {:induction false} ReadyBytesSplit(front: seq<Row>, last: Row)
    ensures ReadyBytes(front + [last]) == ReadyBytes(front) + if last.status == Ready then last.meta.length else 0
    decreases front
  {
    if front == [] {
      assert [last][1..] == [];
    } else {
      assert (front + [last])[1..] == front[1..] + [last];
      ReadyBytesSplit(front[1..], last);
    }
  }

  /**
   The audit passes exactly when the bytes fit 64 bits, nothing is unfinished, and every
   ready row is placed or can be moved.
   */
  lemma AuditPassesExactly(w: World, cfg: Config)
    ensures AuditOk(w, cfg) <==>
      && Sum(Indices(|w.rows|), LengthAt(w.rows)) <= 0x7fff_ffff_ffff_ffff
      && forall i :: 0 <= i < |w.rows| ==>
           && (w.rows[i].status == Ready || w.rows[i].status == Retired)
           && (w.rows[i].status == Ready ==>
                 Complete(w.rows[i]) && (StillPlaced(w, cfg, w.rows[i]) || Movable(w, cfg, w.rows[i])))
  {
    ReadyBytesAddUp(w.rows);
    hide ReadyBytes, Sum;
    forall row: Row ensures CandidateOk(w, cfg, row) <==>
      Complete(row) && (StillPlaced(w, cfg, row) || Movable(w, cfg, row))
    {
      RowPassesExactly(w, cfg, row);
    }
  }

  lemma RowPassesExactly(w: World, cfg: Config, row: Row)
    ensures CandidateOk(w, cfg, row) <==> Complete(row) && (StillPlaced(w, cfg, row) || Movable(w, cfg, row))
  {
    if row.id in w.records && Complete(row) {
      assert Describes(w.records[row.id], row, cfg.targetDir) <==> w.records[row.id] == Expected(cfg, row);
    }
  }

  /** A successful switch places exactly the audited row on the node, under its own key. */
  lemma SwitchPlacesOnNode(w: World, cfg: Config, i: nat, audited: Row)
    requires i < |w.rows| && SwitchControl(w, cfg, i, audited).Ok?
    ensures var w' := SwitchControl(w, cfg, i, audited).value;
      && |w'.rows| == |w.rows| && OnNode(w'.rows[i], cfg.node)
      && w'.rows[i].(placement := w.rows[i].placement) == w.rows[i]
      && w'.rows[i].id == audited.id && w'.rows[i].meta == audited.meta
      && (forall j :: 0 <= j < |w.rows| && j != i ==> w'.rows[j] == w.rows[j])
      && w'.fs == w.fs && w'.records == w.records
  {
  }

  /** The record written or found for a row describes it; other records stay. */
  lemma RecordDescribesRow(w: World, cfg: Config, row: Row)
    requires EnsureRecord(w, cfg, row).Ok?
    ensures var w' := EnsureRecord(w, cfg, row).value;
      && row.id in w'.records && Describes(w'.records[row.id], row, cfg.targetDir)
      && w'.records - {row.id} == w.records - {row.id} && w'.fs == w.fs && w'.rows == w.rows
  {
    var w' := EnsureRecord(w, cfg, row).value;
    assert w'.records - {row.id} == w.records - {row.id};
  }

  /** A file system's own law: paths that share an inode share their bytes. */
  predicate OneInodeOneContent(fs: map<Path, File>) {
    forall p, q :: p in fs && q in fs && fs[p].inode == fs[q].inode ==> fs[p] == fs[q]
  }

  /** The object published or found for a row is its content; no other file is touched, and a copy is independent. */
  lemma ObjectHoldsContent(w: World, cfg: Config, row: Row, linkWorks: bool)
    requires OneInodeOneContent(w.fs) && EnsureObject(w, cfg, row, linkWorks).Ok?
    ensures var w', p := EnsureObject(w, cfg, row, linkWorks).value, Path(cfg.targetDir, row.id);
      && Holds(w'.fs, p, row) && w'.fs - {p} == w.fs - {p} && w'.rows == w.rows && w'.records == w.records
      && (p in w.fs ==> w'.fs == w.fs) && OneInodeOneContent(w'.fs)
      && row.placement.blob.Some? && row.placement.blob.value in w'.fs
      && (cfg.copyOnly ==> row.placement.blob.value != p && w'.fs[row.placement.blob.value].inode != w'.fs[p].inode)
  {
    var w', p := EnsureObject(w, cfg, row, linkWorks).value, Path(cfg.targetDir, row.id);
    assert w'.fs - {p} == w.fs - {p};
    var source := row.placement.blob.value;
    forall q | q in w.fs ensures w.fs[q].inode in Inodes(w.fs) {}
  }

  /**
   After a full run over an audited world every ready row is on the node under its own
   key, with its content in place and a record that describes it, and every old file is as it was.
   */
  lemma MigratedWorld(w: World, cfg: Config, links: nat -> bool, i: nat)
    requires DistinctIds(w.rows) && AuditOk(w, cfg) && i < |w.rows| && w.rows[i].status == Ready
    ensures ApplyAll(w, cfg, links).Ok?
    ensures var w' := ApplyAll(w, cfg, links).value;
      && |w'.rows| == |w.rows| && w'.rows[i].id == w.rows[i].id && w'.rows[i].meta == w.rows[i].meta
      && OnNode(w'.rows[i], cfg.node) && Holds(w'.fs, Path(cfg.targetDir, w.rows[i].id), w.rows[i])
      && w.rows[i].id in w'.records && Describes(w'.records[w.rows[i].id], w.rows[i], cfg.targetDir)
      && (forall p :: p in w.fs ==> p in w'.fs && w'.fs[p] == w.fs[p])
  {
    ThroughSafe(w, cfg, links, |w.rows|);
    hide Through, DistinctIds;
    var w' := ApplyAll(w, cfg, links).value;
    assert w'.rows[i] == w.rows[i] || w'.rows[i] == Switched(cfg, w.rows[i]);
    assert CandidateOk(w', cfg, w'.rows[i]);
  }

  /** One local file, one row: linked, recorded and switched. */
  lemma OneRowMigrates(links: nat -> bool)
    ensures var meta := Meta(1, 2, 3, 10, 10, Some(99), 4, 500);
      var row := Row(5, 6, meta, Ready, Placement(Local, None, None, 1, None, Some(Path(1, 5))));
      var w := World(map[Path(1, 5) := File(8, 10, 99)], map[], [row]);
      var cfg := Config({1}, 2, 7, false);
      AuditOk(w, cfg) && DistinctIds(w.rows) && ApplyAll(w, cfg, links).Ok?
      && OnNode(ApplyAll(w, cfg, links).value.rows[0], 7)
  {
    var meta := Meta(1, 2, 3, 10, 10, Some(99), 4, 500);
    var row := Row(5, 6, meta, Ready, Placement(Local, None, None, 1, None, Some(Path(1, 5))));
    var w := World(map[Path(1, 5) := File(8, 10, 99)], map[], [row]);
    var cfg := Config({1}, 2, 7, false);
    assert ReadyBytes(w.rows) == 10 + ReadyBytes([]);
    MigratedWorld(w, cfg, links, 0);
  }
}
