/** The store methods behind remote completion and deletion, with their rollbacks. */
module UploadStore {
  import opened Basics
  import opened Sums
  import opened TrafficLedger
  import TrafficStore
  import opened Uploads
  import opened UploadSafety

  class Store {
    var transfers: map<nat, Transfer>
    var uploads: map<nat, Upload>
    const traffic: TrafficStore.Store

    constructor (ledger: TrafficStore.Store)
      ensures State() == Control(map[], map[], ledger.State()) && traffic == ledger
    {
      transfers, uploads, traffic := map[], map[], ledger;
    }

    ghost function State(): Control
      reads this, traffic
    {
      Control(transfers, uploads, traffic.State())
    }

    /** Commits a row with its settlement, or restores the row when the ledger refuses. */
    method CommitTerminalRow(id: nat, row: Upload) returns (r: Result<(), Error>)
      requires traffic.PositiveAllocations()
      modifies this`uploads, traffic
      ensures State() == Commit(old(State()), CommitTerminal(old(State()), id, row))
      ensures r.Ok? == CommitTerminal(old(State()), id, row).Ok?
      ensures (r.Err? ==> r.error == CommitTerminal(old(State()), id, row).error)
    {
      hide Settle, Refund;
      var settled := traffic.SettleUploadTraffic(id);
      if settled.Err? {
        return Err(settled.error);
      }
      uploads := uploads[id := row];
      if row.status == Blocked {
        SettleEffect(old(State()).ledger, id);
        var released := traffic.RefundUploadTraffic(id);
        assert released.Ok?;
        uploads := uploads[id := uploads[id].(released := true)];
      }
      return Ok(());
    }

    method CompleteRemoteUploadPlacement(c: Callback) returns (r: Result<(), Error>)
      requires traffic.PositiveAllocations()
      modifies this`uploads, traffic
      ensures State() == Commit(old(State()), Complete(old(State()), c))
      ensures r.Ok? == Complete(old(State()), c).Ok? && (r.Err? ==> r.error == Complete(old(State()), c).error)
    {
      hide CommitTerminal;
      if c.version < PLACEMENT_VERSION_V1 || !(c.verdict == Ready || c.verdict == Blocked || c.verdict == Quarantined) {
        return Err(Conflict);
      }
      if c.id !in uploads {
        return Err(NotFound);
      }
      var current := uploads[c.id];
      if current.request.placement != Node(c.node, c.key) {
        return Err(Conflict);
      }
      if current.status == c.verdict {
        if current.digest != c.digest {
          return Err(Conflict);
        }
        if current.version == c.version {
          r := CommitTerminalRow(c.id, current.(version := current.version + 1));
          return;
        }
        if current.version != c.version + 1 {
          return Err(Conflict);
        }
        r := CommitTerminalRow(c.id, current);
        return;
      }
      if !(current.status == Uploading || current.status == Uploaded || current.status == Scanning)
        || current.version != c.version {
        return Err(Conflict);
      }
      r := CommitTerminalRow(c.id, current.(status := c.verdict, digest := c.digest, version := current.version + 1));
    }
  }
}
