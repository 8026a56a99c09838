/**
 Offline migration of locally stored uploads to one storage node: for each ready
 row the object is published, then the node's record is written, then the control
 row is switched. The process may stop between any two of these steps and be run
 again with the same options.
 */
module Migration {
  import opened Basics
  import opened Sums

  const PLACEMENT_VERSION_V1 := 1
  const CLEAN := 0

  datatype Path = Path(dir: nat, id: nat)

  /** A regular file: its identity on disk and what verification can observe of its bytes. */
  datatype File = File(inode: nat, length: int, digest: nat)

  datatype Status = Ready | Unfinished | Retired | Unsupported

  /** Upload metadata copied into the node's record. `digest` is absent when it is not a SHA-256 value. */
  datatype Meta = Meta(tokenHash: nat, name: nat, contentType: nat, length: int, offset: int, digest: Option<nat>,
    scanDetail: nat, expires: int)

  datatype Kind = Local | Node

  datatype Placement = Placement(kind: Kind, node: Option<nat>, key: Option<nat>, version: int, temp: Option<Path>,
    blob: Option<Path>)

  datatype Row = Row(id: nat, transfer: nat, meta: Meta, status: Status, placement: Placement)

  datatype Record = Record(id: nat, meta: Meta, status: nat, path: Path, lease: nat)

  /** Both databases and the file system; control rows in creation order. */
  datatype World = World(fs: map<Path, File>, records: map<nat, Record>, rows: seq<Row>)

  datatype Config = Config(sourceDirs: set<nat>, targetDir: nat, node: nat, copyOnly: bool)

  datatype Error = Mismatch

  function Target(cfg: Config, id: nat): Path {
    Path(cfg.targetDir, id)
  }

  function Source(cfg: Config, row: Row): Option<Path> {
    match row.placement.blob
    case None => None
    case Some(p) => if p.id == row.id && p.dir in cfg.sourceDirs then Some(p) else None
  }

  /** The object is there with the length and digest the database knows. */
  predicate Verified(fs: map<Path, File>, p: Path, meta: Meta) {
    p in fs && fs[p].length == meta.length && meta.digest == Some(fs[p].digest)
  }

  predicate SameFile(fs: map<Path, File>, p: Path, q: Path) {
    p == q || (p in fs && q in fs && fs[p].inode == fs[q].inode)
  }

  function Expected(cfg: Config, row: Row): Record {
    Record(row.id, row.meta.(offset := row.meta.length), CLEAN, Target(cfg, row.id), 0)
  }

  function NodePlacement(cfg: Config, id: nat): Placement {
    Placement(Node, Some(cfg.node), Some(id), PLACEMENT_VERSION_V1, None, None)
  }

  // ---------- audit ----------

  predicate PlacedOk(w: World, cfg: Config, row: Row) {
    && row.placement == NodePlacement(cfg, row.id)
    && Verified(w.fs, Target(cfg, row.id), row.meta)
    && row.id in w.records && w.records[row.id] == Expected(cfg, row)
  }

  predicate LocalOk(w: World, cfg: Config, row: Row) {
    && row.placement.node == None && row.placement.key == None && row.placement.version == PLACEMENT_VERSION_V1
    && Source(cfg, row).Some? && Verified(w.fs, Source(cfg, row).value, row.meta)
    && (Target(cfg, row.id) in w.fs ==>
        && Verified(w.fs, Target(cfg, row.id), row.meta)
        && (cfg.copyOnly ==> !SameFile(w.fs, Source(cfg, row).value, Target(cfg, row.id))))
    && (row.id in w.records ==> w.records[row.id] == Expected(cfg, row))
  }

  predicate CandidateOk(w: World, cfg: Config, row: Row) {
    && row.meta.offset == row.meta.length >= 0 && row.meta.digest.Some?
    && if row.placement.kind == Node then PlacedOk(w, cfg, row) else LocalOk(w, cfg, row)
  }

  function ReadyBytes(rows: seq<Row>): int {
    if rows == [] then 0 else (if rows[0].status == Ready then rows[0].meta.length else 0) + ReadyBytes(rows[1..])
  }

  predicate AuditOk(w: World, cfg: Config) {
    && ReadyBytes(w.rows) <= MAX_INT64
    && forall i :: 0 <= i < |w.rows| ==>
         && w.rows[i].status != Unfinished && w.rows[i].status != Unsupported
         && (w.rows[i].status == Ready ==> CandidateOk(w, cfg, w.rows[i]))
  }

  predicate DistinctIds(rows: seq<Row>) {
    forall i, j :: 0 <= i < j < |rows| ==> rows[i].id != rows[j].id
  }

  // ---------- the three steps for one row ----------

  function Inodes(fs: map<Path, File>): set<nat> {
    set p | p in fs :: fs[p].inode
  }

  function FreshInode(fs: map<Path, File>): (n: nat)
    ensures n !in Inodes(fs)
  {
    SumNonNegative(Inodes(fs), (k: nat) => k);
    1 + Sum(Inodes(fs), (k: nat) => k)
  }

  /** Publishes the object by hard link, or by a verified copy that is renamed into place. */
  function EnsureObject(w: World, cfg: Config, row: Row, linkWorks: bool): Result<World, Error> {
    var target := Target(cfg, row.id);
    if Source(cfg, row).None? || !Verified(w.fs, Source(cfg, row).value, row.meta) then Err(Mismatch)
    else
      var source := Source(cfg, row).value;
      if SameFile(w.fs, source, target) then
        if cfg.copyOnly then Err(Mismatch) else Ok(w)
      else if target in w.fs then
        if Verified(w.fs, target, row.meta) then Ok(w) else Err(Mismatch)
      else if !cfg.copyOnly && linkWorks then Ok(w.(fs := w.fs[target := w.fs[source]]))
      else Ok(w.(fs := w.fs[target := w.fs[source].(inode := FreshInode(w.fs))]))
  }

  function EnsureRecord(w: World, cfg: Config, row: Row): Result<World, Error> {
    if row.id in w.records then
      if w.records[row.id] == Expected(cfg, row) then Ok(w) else Err(Mismatch)
    else Ok(w.(records := w.records[row.id := Expected(cfg, row)]))
  }

  /** Switches row `i` if it is still the row that was audited. */
  function SwitchControl(w: World, cfg: Config, i: nat, audited: Row): Result<World, Error>
    requires i < |w.rows|
  {
    var row := w.rows[i];
    if row.status != Ready || row.id != audited.id || row.transfer != audited.transfer || row.meta != audited.meta
      then Err(Mismatch)
    else if row.placement.kind == Node then
      if row.placement == NodePlacement(cfg, row.id) then Ok(w) else Err(Mismatch)
    else if row.placement.node != None || row.placement.key != None || row.placement.version != PLACEMENT_VERSION_V1
            || row.placement.temp != audited.placement.temp || row.placement.blob != audited.placement.blob
                 then Err(Mismatch)
    else Ok(w.(rows := w.rows[i := row.(placement := NodePlacement(cfg, row.id))]))
  }

  predicate Pending(row: Row) {
    row.status == Ready && row.placement.kind == Local
  }

  /** The first `phases` steps for row `i`; rows that are not pending are passed over. */
  function Advance(w: World, cfg: Config, i: nat, linkWorks: bool, phases: nat): Result<World, Error>
    requires i < |w.rows|
  {
    if phases == 0 || !Pending(w.rows[i]) then Ok(w) else
      match EnsureObject(w, cfg, w.rows[i], linkWorks)
      case Err(e) => Err(e)
      case Ok(w1) =>
        if phases == 1 then Ok(w1) else
          match EnsureRecord(w1, cfg, w.rows[i])
          case Err(e) => Err(e)
          case Ok(w2) => if phases == 2 then Ok(w2) else SwitchControl(w2, cfg, i, w.rows[i])
  }

  /** Where an apply run stands: every row before `row` finished, and `phases` steps of that row done. */
  datatype Stop = Stop(row: nat, phases: nat)

  predicate ValidStop(w: World, stop: Stop) {
    stop.row < |w.rows| && stop.phases <= 3
  }

  /** Rows `from` up to `to` finished in order; hard links work where `links` says so. */
  function Through(w: World, cfg: Config, links: nat -> bool, upto: nat): Result<World, Error>
    requires upto <= |w.rows|
    ensures Through(w, cfg, links, upto).Ok? ==> |Through(w, cfg, links, upto).value.rows| == |w.rows|
  {
    if upto == 0 then Ok(w) else
      match Through(w, cfg, links, upto - 1)
      case Err(e) => Err(e)
      case Ok(w') => Advance(w', cfg, upto - 1, links(upto - 1), 3)
  }

  /** An apply run that is stopped: nothing happens unless the audit passes. */
  function ApplyUntil(w: World, cfg: Config, links: nat -> bool, stop: Stop): Result<World, Error>
    requires ValidStop(w, stop)
  {
    if !AuditOk(w, cfg) then Ok(w) else
      match Through(w, cfg, links, stop.row)
      case Err(e) => Err(e)
      case Ok(w') => Advance(w', cfg, stop.row, links(stop.row), stop.phases)
  }

  /** An apply run that is not stopped. */
  function ApplyAll(w: World, cfg: Config, links: nat -> bool): Result<World, Error> {
    if !AuditOk(w, cfg) then Ok(w) else Through(w, cfg, links, |w.rows|)
  }
}
