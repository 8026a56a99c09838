/** What creating, finishing, scanning and deleting an upload does to its row, its transfer and its charge. */
module UploadLaws {
  import opened Basics
  import opened Sums
  import opened TrafficPlanner
  import opened TrafficLedger
  import opened TrafficSummary
  import opened TrafficLaws
  import opened Uploads
  import opened UploadSafety
  import Ledgers = TrafficRuns

  /** What a transfer and its limits allow a new file of this length. */
  predicate FitsTransfer(t: Transfer, length: int, limits: Limits, now: int) {
    && t.active && t.expires > now
    && t.files < limits.maxFiles && t.bytes + length <= limits.maxBytes
    && (t.owner.Guest? ==> limits.guestAllowed)
  }

  /** A user's upload must fit what the planner can still spend. */
  predicate FitsTraffic(s: Control, owner: Owner, length: nat, initial: int, now: int) {
    owner.User? ==> length <= PlannerCapacity(EnsureAccount(s.ledger, owner.id, initial), owner.id, now)
  }

  /** A new upload is accepted exactly when it has a length that fits the transfer and its owner's traffic. */
  lemma CreateSucceedsExactly(s: Control, id: nat, q: Request, limits: Limits, now: int)
    requires Coupled(s) && id !in s.uploads
    ensures Create(s, id, q, limits, now).Ok? <==>
      && q.version >= 0 && q.length > 0 && q.transfer in s.transfers
      && FitsTransfer(s.transfers[q.transfer], q.length, limits, now)
      && FitsTraffic(s, s.transfers[q.transfer].owner, q.length, limits.initialTraffic, now)
  {
    assert Chargeable(s, id);
    hide Inv, PlannerCapacity, Reserve;
    if q.length > 0 && q.transfer in s.transfers && s.transfers[q.transfer].owner.User? {
      ReserveSucceedsExactly(s.ledger, id, s.transfers[q.transfer].owner.id, q.length, limits.initialTraffic, now);
    }
  }

  /**
   A new upload holds its whole length for the owner of its transfer, or nothing for a
   guest; the transfer counts one more file and its bytes, and the row starts uploading.
   */
  lemma CreateHoldsTheLength(s: Control, id: nat, q: Request, limits: Limits, now: int)
    requires Create(s, id, q, limits, now).Ok? && id !in s.uploads
    ensures q.transfer in s.transfers
    ensures var s', t := Create(s, id, q, limits, now).value, s.transfers[q.transfer];
      && s'.transfers == s.transfers[q.transfer := t.(files := t.files + 1, bytes := t.bytes + q.length)]
      && s'.uploads.Keys == s.uploads.Keys + {id} && s'.uploads - {id} == s.uploads
      && (var u := s'.uploads[id];
          && u.status == Uploading && u.digest == 0 && !u.released && u.version == u.request.version
          && u.request == q.(version := if q.version == 0 then 1 else q.version))
      && (t.owner.User? ==>
            && id in s'.ledger.charges && s'.ledger.charges - {id} == s.ledger.charges
            && s'.ledger.charges[id].user == t.owner.id && s'.ledger.charges[id].status == Reserved
            && s'.ledger.charges[id].amount == q.length == AllocTotal(s'.ledger.charges[id].allocations))
      && (t.owner.Guest? ==> s'.ledger == s.ledger)
  {
    hide Reserve, AllocTotal;
    var s', t := Create(s, id, q, limits, now).value, s.transfers[q.transfer];
    assert s'.uploads - {id} == s.uploads;
    if t.owner.User? {
      ReserveHoldsAll(s.ledger, id, t.owner.id, q.length, limits.initialTraffic, now);
    }
  }

  /** A local upload is finished exactly once, while it is uploading, and is billed then. */
  lemma FinishBills(s: Control, id: nat)
    requires Coupled(s)
    ensures MarkUploaded(s, id).Ok? <==>
      id in s.uploads && s.uploads[id].status == Uploading && s.uploads[id].request.placement == Local
    ensures MarkUploaded(s, id).Ok? ==>
      var s' := MarkUploaded(s, id).value;
      && s'.uploads == s.uploads[id := s.uploads[id].(status := Uploaded)] && s'.transfers == s.transfers
      && Billed(s', id)
  {
    hide Inv, Settle;
    assert Chargeable(s, id);
    if id in s.uploads && s.uploads[id].status == Uploading {
      SettleAccepted(s.ledger, id);
      SettleEffect(s.ledger, id);
    }
  }

  /** The scan worker takes exactly the finished local uploads. */
  lemma ClaimTakesFinished(s: Control, id: nat)
    ensures var s' := ClaimUpload(s, id);
      if id in s.uploads && s.uploads[id].status == Uploaded && s.uploads[id].request.placement == Local
      then s' == s.(uploads := s.uploads[id := s.uploads[id].(status := Scanning)]) else s' == s
  {
  }

  /**
   A deleted upload holds nothing, keeps what it was billed, and leaves its transfer's
   counters if it was still uploading.
   */
  lemma DeleteReleases(s: Control, id: nat, seenUploading: bool)
    requires Coupled(s) && id in s.uploads
    ensures MarkDeleted(s, id, seenUploading).Ok?
    ensures var s', u := MarkDeleted(s, id, seenUploading).value, s.uploads[id];
      && s'.uploads == s.uploads[id := u.(status := Deleted, released := true)]
      && (id in s'.ledger.charges ==> s'.ledger.charges[id].status != Reserved)
      && s'.ledger.entitlements == s.ledger.entitlements
      && (id in s.ledger.charges && s.ledger.charges[id].status != Reserved ==> s'.ledger == s.ledger)
      && (!seenUploading ==> s'.transfers == s.transfers)
      && (seenUploading && u.request.transfer in s.transfers ==>
            var t, t' := s.transfers[u.request.transfer], s'.transfers[u.request.transfer];
            && t'.files == Max(t.files - 1, 0) && t'.bytes == Max(t.bytes - u.request.length, 0)
            && s'.transfers - {u.request.transfer} == s.transfers - {u.request.transfer})
  {
    hide Inv;
    RefundAccepted(s.ledger, id);
    var s', t := MarkDeleted(s, id, seenUploading).value, s.uploads[id].request.transfer;
    assert s'.transfers - {t} == s.transfers - {t};
  }

  /**
   A local scan records its verdict and digest, a clean one only on a row still being
   scanned; a blocked one releases the hold.
   */
  lemma ScanRecords(s: Control, id: nat, verdict: Status, digest: nat)
    requires Coupled(s) && id in s.uploads && s.uploads[id].request.placement == Local && Terminal(verdict)
    ensures MarkScanned(s, id, verdict, digest).Ok?
    ensures var s', u := MarkScanned(s, id, verdict, digest).value, s.uploads[id];
      && (verdict == Ready && u.status != Scanning ==> s' == s)
      && (verdict != Ready || u.status == Scanning ==>
            && s'.uploads[id].status == verdict && s'.uploads[id].digest == digest
            && s'.uploads - {id} == s.uploads - {id} && s'.transfers == s.transfers)
      && (verdict == Blocked ==>
            && s'.uploads[id].released
            && (id in s'.ledger.charges ==> s'.ledger.charges[id].status != Reserved))
      && (verdict != Blocked ==> s'.ledger == s.ledger)
  {
    hide Inv;
    RefundAccepted(s.ledger, id);
    assert (MarkScanned(s, id, verdict, digest).value.uploads - {id}) == s.uploads - {id};
  }

  /** A charge is held from creation until exactly one of completion, deletion or a blocked scan resolves it. */
  lemma CreatedIsHeldUntilResolved(s: Control, id: nat, q: Request, limits: Limits, now: int, events: seq<Event>)
    requires Coupled(s) && Create(s, id, q, limits, now).Ok? && id !in s.uploads && s.transfers[q.transfer].owner.User?
    ensures var later := Run(Create(s, id, q, limits, now).value, events);
      && id in later.ledger.charges
      && later.ledger.charges[id].user == s.transfers[q.transfer].owner.id
      && later.ledger.charges[id].amount == q.length
      && (later.ledger.charges[id].status == Reserved ==>
            Settle(later.ledger, id).Ok? && Refund(later.ledger, id).Ok?)
  {
    hide Run, Inv, Reserve, Create, Settle, Refund;
    CreateHoldsTheLength(s, id, q, limits, now);
    CreateKeeps(s, id, q, limits, now);
    var first := Create(s, id, q, limits, now).value;
    RunKeepsCoupled(first, events);
    ChargeTermsStay(first, events, id);
    var later := Run(first, events);
    if later.ledger.charges[id].status == Reserved {
      SettleAccepted(later.ledger, id);
      RefundAccepted(later.ledger, id);
    }
  }

  predicate SameTerms(before: Ledger, after: Ledger, id: nat)
    requires id in before.charges
  {
    && id in after.charges && after.charges[id].user == before.charges[id].user
    && after.charges[id].amount == before.charges[id].amount
    && after.charges[id].allocations == before.charges[id].allocations
  }

  lemma SameLedger(l: Ledger, id: nat)
    requires id in l.charges
    ensures SameTerms(l, l, id)
  {
  }

  lemma EqualCharges(l: Ledger, l': Ledger, id: nat)
    requires id in l.charges && l'.charges == l.charges
    ensures SameTerms(l, l', id)
  {
  }

  lemma ReserveKeepsTerms(l: Ledger, upload: nat, user: nat, required: int, initial: int, now: int, id: nat)
    requires id in l.charges
    ensures Reserve(l, upload, user, required, initial, now).Ok? ==>
      SameTerms(l, Reserve(l, upload, user, required, initial, now).value, id)
  {
    hide Slots, LegacyReserved, PlanFor;
  }

  /** Settling, refunding, or both change no charge's terms. */
  lemma ResolvingKeepsTerms(l: Ledger, upload: nat, id: nat)
    requires id in l.charges
    ensures Settle(l, upload).Ok? ==> SameTerms(l, Settle(l, upload).value, id)
    ensures Refund(l, upload).Ok? ==> SameTerms(l, Refund(l, upload).value, id)
    ensures Settle(l, upload).Ok? && Refund(Settle(l, upload).value, upload).Ok? ==>
      SameTerms(l, Refund(Settle(l, upload).value, upload).value, id)
  {
    hide Payable, Obstacle, AllocTotal, AllocOn;
    if Settle(l, upload).Ok? {
      SettleEffect(l, upload);
    }
  }

  lemma NextKeepsTerms(s: Control, e: Event, id: nat)
    requires id in s.ledger.charges
    ensures SameTerms(s.ledger, Next(s, e).ledger, id)
  {
    hide Settle, Refund, Reserve, Ledgers.Apply, SameTerms;
    SameLedger(s.ledger, id);
    match e
    case Created(newId, q, limits, now) =>
      var r := Normalized(q);
      if newId !in s.uploads && r.transfer in s.transfers && s.transfers[r.transfer].owner.User? {
        ReserveKeepsTerms(s.ledger, newId, s.transfers[r.transfer].owner.id, r.length, limits.initialTraffic, now, id);
      }
    case Reported(c) => ResolvingKeepsTerms(s.ledger, c.id, id);
    case Finished(local) => ResolvingKeepsTerms(s.ledger, local, id);
    case Claimed(_) =>
    case Scanned(local, _, _) => ResolvingKeepsTerms(s.ledger, local, id);
    case Removed(victim, _) => ResolvingKeepsTerms(s.ledger, victim, id);
    case Other(step) =>
      if External(step) {
        ExternalCharges(s.ledger, step);
        EqualCharges(s.ledger, Ledgers.Apply(s.ledger, step), id);
      }
  }

  lemma {:induction false} ChargeTermsStay(s: Control, events: seq<Event>, id: nat)
    requires id in s.ledger.charges
    ensures SameTerms(s.ledger, Run(s, events).ledger, id)
    decreases events
  {
    if events != [] {
      NextKeepsTerms(s, events[0], id);
      hide Next;
      ChargeTermsStay(Next(s, events[0]), events[1..], id);
    }
  }
}
