/**
 Control-plane uploads: creation against the quota, local and remote completion,
 and deletion, each coupled to the traffic ledger inside one transaction.
 */
module Uploads {
  import opened Basics
  import opened Sums
  import opened TrafficLedger
  import opened TrafficRuns

  datatype Status = Uploading | Uploaded | Scanning | Ready | Quarantined | Blocked | Deleted

  datatype Placement = Local | Node(node: nat, key: nat)

  /** What an exact retry of the creation request must repeat. */
  datatype Request = Request(transfer: nat, tokenHash: nat, name: nat, contentType: nat, length: int,
    placement: Placement, version: int)

  datatype Upload = Upload(request: Request, version: int, status: Status, digest: nat, released: bool)

  datatype Owner = Guest | User(id: nat)

  datatype Transfer = Transfer(active: bool, expires: int, owner: Owner, files: int, bytes: int)

  datatype Control = Control(transfers: map<nat, Transfer>, uploads: map<nat, Upload>, ledger: Ledger)

  datatype Limits = Limits(maxFiles: int, maxBytes: int, initialTraffic: int, guestAllowed: bool)

  /** A terminal result reported by a storage node. */
  datatype Callback = Callback(id: nat, node: nat, key: nat, version: int, verdict: Status, digest: nat)

  predicate Terminal(s: Status) {
    s == Ready || s == Quarantined || s == Blocked
  }

  predicate InProgress(s: Status) {
    s == Uploading || s == Uploaded || s == Scanning
  }

  const PLACEMENT_VERSION_V1 := 1

  function Normalized(r: Request): Request {
    if r.version == 0 then r.(version := PLACEMENT_VERSION_V1) else r
  }

  /** The row an exact retry would find: untouched identity, and not deleted. */
  predicate Repeats(u: Upload, r: Request) {
    u.status != Deleted && u.request.(version := u.version) == r
  }

  function Create(s: Control, id: nat, request: Request, limits: Limits, now: int): Result<Control, Error> {
    var r := Normalized(request);
    if r.version < PLACEMENT_VERSION_V1 || r.length <= 0 then Err(Conflict)
    else if r.transfer !in s.transfers then Err(NotFound)
    else if id in s.uploads then
      if Repeats(s.uploads[id], r) then Ok(s) else Err(Conflict)
    else
      var t := s.transfers[r.transfer];
      if !t.active || t.expires <= now then Err(Conflict)
      else if t.files + 1 > limits.maxFiles || t.bytes + r.length > limits.maxBytes then Err(QuotaExceeded)
      else if t.owner.Guest? && !limits.guestAllowed then Err(QuotaExceeded)
      else
        var charged := if t.owner.User? then Reserve(s.ledger, id, t.owner.id, r.length, limits.initialTraffic, now)
          else Ok(s.ledger);
        if charged.Err? then Err(charged.error) else
          Ok(Control(s.transfers[r.transfer := t.(files := t.files + 1, bytes := t.bytes + r.length)],
                     s.uploads[id := Upload(r, r.version, Uploading, 0, false)],
                     charged.value))
  }

  /** Settles the charge with the verdict, and hands the storage back if it was blocked. */
  function CommitTerminal(s: Control, id: nat, row: Upload): Result<Control, Error> {
    match Settle(s.ledger, id)
    case Err(e) => Err(e)
    case Ok(settled) =>
      if row.status != Blocked then Ok(s.(uploads := s.uploads[id := row], ledger := settled)) else
        match Refund(settled, id)
        case Err(e) => Err(e)
        case Ok(released) => Ok(s.(uploads := s.uploads[id := row.(released := true)], ledger := released))
  }

  function Complete(s: Control, c: Callback): Result<Control, Error> {
    if c.version < PLACEMENT_VERSION_V1 || !Terminal(c.verdict) then Err(Conflict)
    else if c.id !in s.uploads then Err(NotFound)
    else
      var u := s.uploads[c.id];
      if u.request.placement != Node(c.node, c.key) then Err(Conflict)
      else if u.status == c.verdict then
        if u.digest != c.digest then Err(Conflict)
        else if u.version == c.version then CommitTerminal(s, c.id, u.(version := u.version + 1))
        else if u.version != c.version + 1 then Err(Conflict)
        else CommitTerminal(s, c.id, u)
      else if !InProgress(u.status) || u.version != c.version then Err(Conflict)
      else CommitTerminal(s, c.id, u.(status := c.verdict, digest := c.digest, version := u.version + 1))
  }

  /** A local upload whose last byte arrived. */
  function MarkUploaded(s: Control, id: nat): Result<Control, Error> {
    if id !in s.uploads || s.uploads[id].status != Uploading || s.uploads[id].request.placement != Local
      then Err(Conflict) else
      match Settle(s.ledger, id)
      case Err(e) => Err(e)
      case Ok(settled) => Ok(s.(uploads := s.uploads[id := s.uploads[id].(status := Uploaded)], ledger := settled))
  }

  /** The scan worker takes a finished local upload. */
  function ClaimUpload(s: Control, id: nat): Control {
    if id !in s.uploads || s.uploads[id].status != Uploaded || s.uploads[id].request.placement != Local then s
    else s.(uploads := s.uploads[id := s.uploads[id].(status := Scanning)])
  }

  /**
   The worker's verdict on a local upload it claimed earlier. Only a clean verdict looks
   at the status again, so the other two also overwrite a row deleted meanwhile.
   */
  function MarkScanned(s: Control, id: nat, verdict: Status, digest: nat): Result<Control, Error> {
    if id !in s.uploads || s.uploads[id].request.placement != Local || !Terminal(verdict) then Ok(s) else
      var u := s.uploads[id].(status := verdict, digest := digest);
      match verdict
      case Ready => Ok(if s.uploads[id].status == Scanning then s.(uploads := s.uploads[id := u]) else s)
      case Blocked =>
        (match Refund(s.ledger, id)
         case Err(e) => Err(e)
         case Ok(refunded) => Ok(s.(uploads := s.uploads[id := u.(released := true)], ledger := refunded)))
      case _ => Ok(s.(uploads := s.uploads[id := u]))
  }

  /** `seenUploading` is the status the cleanup worker read before it removed the files. */
  function MarkDeleted(s: Control, id: nat, seenUploading: bool): Result<Control, Error> {
    if id !in s.uploads then Ok(s) else
      match Refund(s.ledger, id)
      case Err(e) => Err(e)
      case Ok(refunded) =>
        var u := s.uploads[id];
        var t := u.request.transfer;
        var transfers := if seenUploading && t in s.transfers
                         then s.transfers[t := Shrunk(s.transfers[t], u.request.length)] else s.transfers;
        Ok(Control(transfers, s.uploads[id := u.(status := Deleted, released := true)], refunded))
  }

  function Shrunk(t: Transfer, length: int): Transfer {
    t.(files := Max(t.files - 1, 0), bytes := Max(t.bytes - length, 0))
  }

  /** Ledger transactions of other features that resolve no upload charge. */
  predicate External(step: Step) {
    step.Open? || step.Ensure? || step.GrantTo? || step.Revoke? || step.DropLegacy?
  }

  datatype Event =
    | Created(newId: nat, request: Request, limits: Limits, now: int)
    | Reported(callback: Callback)
    | Finished(local: nat)
    | Claimed(local: nat)
    | Scanned(local: nat, verdict: Status, digest: nat)
    | Removed(victim: nat, seenUploading: bool)
    | Other(step: Step)

  function Commit(s: Control, r: Result<Control, Error>): Control {
    if r.Ok? then r.value else s
  }

  function Next(s: Control, e: Event): Control {
    match e
    case Created(id, request, limits, now) => Commit(s, Create(s, id, request, limits, now))
    case Reported(c) => Commit(s, Complete(s, c))
    case Finished(id) => Commit(s, MarkUploaded(s, id))
    case Claimed(id) => ClaimUpload(s, id)
    case Scanned(id, verdict, digest) => Commit(s, MarkScanned(s, id, verdict, digest))
    case Removed(id, seenUploading) => Commit(s, MarkDeleted(s, id, seenUploading))
    case Other(step) => if External(step) then s.(ledger := Apply(s.ledger, step)) else s
  }

  function Run(s: Control, events: seq<Event>): Control
    decreases events
  {
    if events == [] then s else Run(Next(s, events[0]), events[1..])
  }
}
