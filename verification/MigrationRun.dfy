/** The apply loop of the migration, changing the file system and both databases step by step. */
module MigrationRun {
  import opened Basics
  import opened Sums
  import opened Migration
  import opened MigrationSafety

  class Migrator {
    var fs: map<Path, File>
    var records: map<nat, Record>
    var rows: seq<Row>

    ghost function View(): World
      reads this
    {
      World(fs, records, rows)
    }

    /** The verified object is in place afterwards, unless something refuses to match. */
    method PrepareObject(cfg: Config, row: Row, linkWorks: bool) returns (ok: bool, reused: bool)
      modifies this`fs
      ensures ok == EnsureObject(old(View()), cfg, row, linkWorks).Ok?
      ensures View() == if ok then EnsureObject(old(View()), cfg, row, linkWorks).value else old(View())
      ensures ok && reused ==> fs == old(fs)
    {
      var target := Target(cfg, row.id);
      var located := Source(cfg, row);
      if located.None? || !Verified(fs, located.value, row.meta) {
        return false, false;
      }
      var source := located.value;
      if SameFile(fs, source, target) {
        return !cfg.copyOnly, !cfg.copyOnly;
      }
      if target in fs {
        var matches := Verified(fs, target, row.meta);
        return matches, matches;
      }
      if !cfg.copyOnly && linkWorks {
        fs := fs[target := fs[source]];
      } else {
        fs := fs[target := fs[source].(inode := FreshInode(fs))];
      }
      return true, false;
    }

    method ImportRecord(cfg: Config, row: Row) returns (ok: bool)
      modifies this`records
      ensures ok == EnsureRecord(old(View()), cfg, row).Ok?
      ensures View() == if ok then EnsureRecord(old(View()), cfg, row).value else old(View())
    {
      var expected := Expected(cfg, row);
      if row.id !in records {
        records := records[row.id := expected];
      }
      return records[row.id] == expected;
    }

    method SwitchRow(cfg: Config, i: nat, audited: Row) returns (ok: bool, changed: bool)
      requires i < |rows|
      modifies this`rows
      ensures ok == SwitchControl(old(View()), cfg, i, audited).Ok?
      ensures View() == if ok then SwitchControl(old(View()), cfg, i, audited).value else old(View())
      ensures changed == (ok && rows[i].placement.kind != old(rows)[i].placement.kind)
    {
      var row := rows[i];
      if row.status != Ready || row.id != audited.id || row.transfer != audited.transfer || row.meta != audited.meta {
        return false, false;
      }
      if row.placement.kind == Node {
        return row.placement == NodePlacement(cfg, row.id), false;
      }
      if row.placement.node != None || row.placement.key != None || row.placement.version != PLACEMENT_VERSION_V1
         || row.placement.temp != audited.placement.temp || row.placement.blob != audited.placement.blob {
        return false, false;
      }
      rows := rows[i := row.(placement := NodePlacement(cfg, row.id))];
      return true, true;
    }

    /** The first `phases` steps for one candidate: object, record, switch. */
    method MigrateRow(cfg: Config, i: nat, linkWorks: bool, phases: nat) returns (ok: bool, imported: nat)
      requires i < |rows|
      modifies this
      ensures ok == Advance(old(View()), cfg, i, linkWorks, phases).Ok?
      ensures ok ==> View() == Advance(old(View()), cfg, i, linkWorks, phases).value
      ensures ok ==> imported == ImportsAt(old(View()), i, phases)
    {
      hide EnsureObject, EnsureRecord;
      imported := 0;
      var candidate := rows[i];
      if phases == 0 || !Pending(candidate) {
        return true, 0;
      }
      var reused;
      ok, reused := PrepareObject(cfg, candidate, linkWorks);
      if !ok || phases == 1 {
        return;
      }
      ok := ImportRecord(cfg, candidate);
      if !ok || phases == 2 {
        return;
      }
      var changed;
      ok, changed := SwitchRow(cfg, i, candidate);
      if changed {
        imported := 1;
      }
    }

    /** The apply loop over the first `last` rows of an audited world. */
    method MigrateRows(cfg: Config, links: nat -> bool, last: nat) returns (imported: nat)
      requires Sound(View(), cfg) && last <= |rows|
      modifies this
      ensures |rows| == |old(rows)| && Through(old(View()), cfg, links, last) == Ok(View())
      ensures imported == ImportsThrough(old(View()), cfg, links, last)
    {
      hide Advance, Sound, Between;
      ghost var w := View();
      imported := 0;
      for i := 0 to last
        invariant Through(w, cfg, links, i) == Ok(View()) && |rows| == |w.rows|
        invariant imported == ImportsThrough(w, cfg, links, i)
      {
        var done, count;
        ThroughSafe(w, cfg, links, i);
        AdvanceSafe(View(), cfg, i, links(i), 3);
        done, count := MigrateRow(cfg, i, links(i), 3);
        imported := imported + count;
      }
    }

    /**
     One apply run. `stop` is where the process is killed, if it is; the rows before it
     are finished in order. Nothing is written unless every row passes the audit first.
     */
    method RunStorageMigration(cfg: Config, links: nat -> bool, stop: Option<Stop>) returns (ok: bool, imported: nat)
      requires DistinctIds(rows) && (stop.Some? ==> ValidStop(View(), stop.value))
      modifies this
      ensures ok == AuditOk(old(View()), cfg)
      ensures !ok ==> View() == old(View()) && imported == 0
      ensures ok ==> Ok(View()) == if stop.Some? then ApplyUntil(old(View()), cfg, links, stop.value)
        else ApplyAll(old(View()), cfg, links)
      ensures PendingCount(old(rows)) == PendingCount(rows) + imported
      ensures ok ==> PlacedRowsBacked(View(), cfg)
    {
      ghost var w := View();
      if !AuditOk(World(fs, records, rows), cfg) {
        return false, 0;
      }
      hide Advance, AuditOk, PlacedRowsBacked, PendingCount, Between;
      var last := if stop.Some? then stop.value.row else |rows|;
      imported := MigrateRows(cfg, links, last);
      ImportsThroughCount(w, cfg, links, last);
      ThroughSafe(w, cfg, links, last);
      SoundIsBacked(View(), cfg);
      if stop.Some? {
        StoppedRunIsSafe(w, cfg, links, stop.value);
        ImportsCount(w, cfg, Attempt(links, stop.value));
        var done, count;
        done, count := MigrateRow(cfg, last, links(last), stop.value.phases);
        imported := imported + count;
      }
      return true, imported;
    }
  }
}
