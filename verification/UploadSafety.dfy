/**
 Remote completion under duplicated, reordered and stale callbacks: what the first
 accepted verdict fixes, and exactly when a later callback is accepted.
 */
module UploadSafety {
  import opened Basics
  import opened Sums
  import opened TrafficPlanner
  import opened TrafficLedger
  import opened TrafficSafety
  import Ledgers = TrafficRuns
  import opened Uploads

  /** A row that may still settle its charge. */
  predicate Unresolved(u: Upload) {
    u.status == Uploading || (u.request.placement.Node? && u.status != Deleted)
  }

  /** A charge belongs to an upload and has not been handed back while that upload may settle it. */
  predicate Chargeable(s: Control, id: nat) {
    id in s.ledger.charges ==>
      id in s.uploads && (Unresolved(s.uploads[id]) ==> s.ledger.charges[id].status != Refunded)
  }

  ghost predicate Coupled(s: Control) {
    Inv(s.ledger) && forall id :: Chargeable(s, id)
  }

  /** The charge of `id`, if it has one, has been taken. */
  predicate Billed(s: Control, id: nat) {
    id in s.ledger.charges ==> s.ledger.charges[id].status == Settled || s.ledger.charges[id].status == Grandfathered
  }

  // ---------- the ledger half of a transaction ----------

  /** Settling touches one charge, and repeating or undoing it has no further effect. */
  lemma SettleEffect(l: Ledger, id: nat)
    requires Settle(l, id).Ok?
    ensures var l' := Settle(l, id).value;
      && l'.charges.Keys == l.charges.Keys
      && (forall u :: u in l.charges && u != id ==> l'.charges[u] == l.charges[u])
      && (id in l.charges ==> l'.charges[id].status == Settled || l'.charges[id].status == Grandfathered)
      && Settle(l', id) == Ok(l') && Refund(l', id) == Ok(l')
  {
    hide Payable, AllocTotal, AllocOn;
  }

  lemma SettleAccepted(l: Ledger, id: nat)
    requires Inv(l) && (id in l.charges ==> l.charges[id].status != Refunded)
    ensures Settle(l, id).Ok? && Inv(Settle(l, id).value)
  {
    if id in l.charges && l.charges[id].status == Reserved {
      ResolvingNeverRejected(l, id);
    }
    hide Inv, Payable, AllocTotal;
    SettleKeeps(l, id);
  }

  lemma RefundEffect(l: Ledger, id: nat)
    requires Refund(l, id).Ok?
    ensures var l' := Refund(l, id).value;
      && l'.charges.Keys == l.charges.Keys
      && (forall u :: u in l.charges && u != id ==> l'.charges[u] == l.charges[u])
      && (id in l.charges && l.charges[id].status != Reserved ==> l' == l)
  {
    hide AllocTotal;
  }

  lemma RefundAccepted(l: Ledger, id: nat)
    requires Inv(l)
    ensures Refund(l, id).Ok? && Inv(Refund(l, id).value)
  {
    if id in l.charges && l.charges[id].status == Reserved {
      ResolvingNeverRejected(l, id);
    }
    hide Inv, AllocTotal;
    RefundKeeps(l, id);
  }

  lemma ReserveEffect(l: Ledger, upload: nat, user: nat, required: int, initial: int, now: int)
    requires Reserve(l, upload, user, required, initial, now).Ok?
    ensures var l' := Reserve(l, upload, user, required, initial, now).value;
      upload !in l.charges && l'.charges - {upload} == l.charges
  {
    hide Slots, LegacyReserved, PlanFor;
  }

  // ---------- one callback ----------

  /** What the upload row alone demands of a callback. */
  predicate RowAccepts(u: Upload, c: Callback) {
    && c.version >= PLACEMENT_VERSION_V1 && Terminal(c.verdict) && u.request.placement == Node(c.node, c.key)
    && if u.status == c.verdict then u.digest == c.digest && (u.version == c.version || u.version == c.version + 1)
       else InProgress(u.status) && u.version == c.version
  }

  predicate Accepted(s: Control, c: Callback) {
    c.id in s.uploads && RowAccepts(s.uploads[c.id], c)
  }

  function Recorded(u: Upload, c: Callback): Upload {
    u.(status := c.verdict, digest := c.digest, version := c.version + 1,
       released := u.released || c.verdict == Blocked)
  }

  /**
   The ledger never turns a callback away: it commits exactly when the row accepts
   it, and then records the verdict, the digest and the next version, with the
   charge settled (for blocked uploads too).
   */
  lemma CallbackCommitsExactly(s: Control, c: Callback)
    requires Coupled(s)
    ensures Complete(s, c).Ok? <==> Accepted(s, c)
    ensures Accepted(s, c) ==>
      Complete(s, c).value == Control(s.transfers, s.uploads[c.id := Recorded(s.uploads[c.id], c)],
        Settle(s.ledger, c.id).value)
    ensures Accepted(s, c) ==> Coupled(Complete(s, c).value) && Billed(Complete(s, c).value, c.id)
  {
    hide Inv, Settle, Refund;
    if Accepted(s, c) {
      assert Chargeable(s, c.id);
      SettleAccepted(s.ledger, c.id);
      SettleEffect(s.ledger, c.id);
      var s' := Complete(s, c).value;
      forall id ensures Chargeable(s', id) {
        assert Chargeable(s, id);
      }
    }
  }

  /** Delivering an accepted callback again at once succeeds and changes nothing. */
  lemma ExactRetryIsIdempotent(s: Control, c: Callback)
    requires Coupled(s) && Complete(s, c).Ok?
    ensures Complete(Complete(s, c).value, c) == Complete(s, c)
  {
    hide Inv, Settle, Refund, Complete;
    var s' := Complete(s, c).value;
    CallbackCommitsExactly(s, c);
    CallbackCommitsExactly(s', c);
    assert Chargeable(s, c.id);
    SettleAccepted(s.ledger, c.id);
    SettleEffect(s.ledger, c.id);
    assert s'.uploads[c.id := Recorded(s'.uploads[c.id], c)] == s'.uploads;
  }

  // ---------- every event keeps the coupling ----------

  lemma CreateKeeps(s: Control, id: nat, request: Request, limits: Limits, now: int)
    requires Coupled(s) && Create(s, id, request, limits, now).Ok?
    ensures Coupled(Create(s, id, request, limits, now).value)
  {
    hide Inv, Slots, LegacyReserved, PlanFor;
    var s' := Create(s, id, request, limits, now).value;
    var t := s.transfers[Normalized(request).transfer];
    if id !in s.uploads {
      if t.owner.User? {
        ReserveKeeps(s.ledger, id, t.owner.id, request.length, limits.initialTraffic, now);
      }
      forall u ensures Chargeable(s', u) {
        assert Chargeable(s, u);
      }
    }
  }

  lemma DeleteKeeps(s: Control, id: nat, seenUploading: bool)
    requires Coupled(s)
    ensures MarkDeleted(s, id, seenUploading).Ok? && Coupled(MarkDeleted(s, id, seenUploading).value)
  {
    hide Inv, Refund;
    RefundAccepted(s.ledger, id);
    RefundEffect(s.ledger, id);
    var s' := MarkDeleted(s, id, seenUploading).value;
    forall u ensures Chargeable(s', u) {
      assert Chargeable(s, u);
    }
  }

  lemma FinishKeeps(s: Control, id: nat)
    requires Coupled(s) && MarkUploaded(s, id).Ok?
    ensures Coupled(MarkUploaded(s, id).value)
  {
    hide Inv, Settle;
    assert Chargeable(s, id);
    SettleAccepted(s.ledger, id);
    SettleEffect(s.ledger, id);
    var s' := MarkUploaded(s, id).value;
    forall u ensures Chargeable(s', u) {
      assert Chargeable(s, u);
    }
  }

  /** The ledger never refuses a scan verdict either. */
  lemma ScanKeeps(s: Control, id: nat, verdict: Status, digest: nat)
    requires Coupled(s)
    ensures MarkScanned(s, id, verdict, digest).Ok? && Coupled(MarkScanned(s, id, verdict, digest).value)
  {
    hide Inv, Refund;
    RefundAccepted(s.ledger, id);
    RefundEffect(s.ledger, id);
    var s' := MarkScanned(s, id, verdict, digest).value;
    forall u ensures Chargeable(s', u) {
      assert Chargeable(s, u);
    }
  }

  lemma ClaimKeeps(s: Control, id: nat)
    requires Coupled(s)
    ensures Coupled(ClaimUpload(s, id))
  {
    hide Inv;
    forall u ensures Chargeable(ClaimUpload(s, id), u) {
      assert Chargeable(s, u);
    }
  }

  lemma ExternalCharges(l: Ledger, step: Ledgers.Step)
    requires External(step)
    ensures Ledgers.Apply(l, step).charges == l.charges
  {
  }

  lemma NextKeeps(s: Control, e: Event)
    requires Coupled(s)
    ensures Coupled(Next(s, e))
  {
    hide Inv, Create, Complete, MarkUploaded, ClaimUpload, MarkScanned, MarkDeleted, Ledgers.Apply;
    match e
    case Created(id, request, limits, now) =>
      if Create(s, id, request, limits, now).Ok? {
        CreateKeeps(s, id, request, limits, now);
      }
    case Reported(c) => CallbackCommitsExactly(s, c);
    case Finished(id) =>
      if MarkUploaded(s, id).Ok? {
        FinishKeeps(s, id);
      }
    case Claimed(id) => ClaimKeeps(s, id);
    case Scanned(id, verdict, digest) => ScanKeeps(s, id, verdict, digest);
    case Removed(id, seenUploading) => DeleteKeeps(s, id, seenUploading);
    case Other(step) =>
      if External(step) {
        Ledgers.ApplyKeeps(s.ledger, step);
        ExternalCharges(s.ledger, step);
        forall u ensures Chargeable(Next(s, e), u) {
          assert Chargeable(s, u);
        }
      }
  }

  // ---------- whole runs ----------

  /**
   How one upload row may move: forwards only, and the verdict of a node is never
   rewritten. A local row has no version to advance.
   */
  predicate Advances(u: Upload, u': Upload) {
    && u'.request == u.request && u'.version >= u.version
    && (u.request.placement.Local? ==> u'.version == u.version)
    && (u.request.placement.Node? && u.status == Deleted ==> u'.status == Deleted)
    && (u.request.placement.Node? && !InProgress(u.status) ==>
          u'.digest == u.digest && (u'.status == u.status || u'.status == Deleted))
  }

  ghost predicate RowsAdvance(s: Control, s': Control) {
    forall id :: id in s.uploads ==> id in s'.uploads && Advances(s.uploads[id], s'.uploads[id])
  }

  lemma NextAdvances(s: Control, e: Event)
    ensures RowsAdvance(s, Next(s, e))
  {
    hide Settle, Refund, Reserve, Ledgers.Apply;
  }

  /** Over any run, the first accepted verdict of a node and its digest never change. */
  lemma {:induction false} VerdictIsFinal(s: Control, events: seq<Event>)
    ensures RowsAdvance(s, Run(s, events))
    decreases events
  {
    hide Next;
    if events != [] {
      NextAdvances(s, events[0]);
      VerdictIsFinal(Next(s, events[0]), events[1..]);
      AdvancesChain(s, Next(s, events[0]), Run(s, events));
    }
  }

  lemma AdvancesChain(a: Control, b: Control, c: Control)
    requires RowsAdvance(a, b) && RowsAdvance(b, c)
    ensures RowsAdvance(a, c)
  {
    forall id | id in a.uploads ensures id in c.uploads && Advances(a.uploads[id], c.uploads[id]) {
      assert id in b.uploads && Advances(a.uploads[id], b.uploads[id]) && Advances(b.uploads[id], c.uploads[id]);
    }
  }

  lemma {:induction false} RunKeepsCoupled(s: Control, events: seq<Event>)
    requires Coupled(s)
    ensures Coupled(Run(s, events))
    decreases events
  {
    hide Coupled, Next;
    if events != [] {
      NextKeeps(s, events[0]);
      RunKeepsCoupled(Next(s, events[0]), events[1..]);
    }
  }

  /** An event moves the version of `id` exactly when it is an accepted callback carrying the current version. */
  lemma VersionMovesExactly(s: Control, e: Event, id: nat)
    requires Coupled(s) && id in s.uploads
    ensures id in Next(s, e).uploads
    ensures Next(s, e).uploads[id].version == s.uploads[id].version +
      (if e.Reported? && e.callback.id == id && Accepted(s, e.callback) && e.callback.version == s.uploads[id].version
        then 1 else 0)
  {
    hide Inv, Settle, Refund, Reserve, Ledgers.Apply;
    if e.Reported? {
      CallbackCommitsExactly(s, e.callback);
    }
  }

  /** Every callback for `id` carries the version its placement was issued with. */
  predicate Issued(events: seq<Event>, id: nat, version: int) {
    forall i :: 0 <= i < |events| && events[i].Reported? && events[i].callback.id == id ==>
      events[i].callback.version == version
  }

  /** Where the version of an upload stands when all callbacks carry the issued version. */
  predicate OnceAdvanced(u: Upload, version: int) {
    || (u.version == version && u.request.placement.Local?)
    || (u.version == version && !Terminal(u.status))
    || (u.version == version + 1 && (Terminal(u.status) || u.status == Deleted))
  }

  lemma NextOnceAdvanced(s: Control, e: Event, id: nat, version: int)
    requires Coupled(s) && id in s.uploads && OnceAdvanced(s.uploads[id], version)
    requires e.Reported? && e.callback.id == id ==> e.callback.version == version
    ensures id in Next(s, e).uploads && OnceAdvanced(Next(s, e).uploads[id], version)
  {
    hide Inv, Settle, Refund, Reserve, Ledgers.Apply;
    VersionMovesExactly(s, e, id);
    if e.Reported? {
      CallbackCommitsExactly(s, e.callback);
    }
  }

  /**
   The placement version advances exactly once, with the verdict, in every run whose
   callbacks carry the issued version, however often and in whatever order they arrive.
   */
  lemma {:induction false} VersionAdvancesOnce(s: Control, events: seq<Event>, id: nat, version: int)
    requires Coupled(s) && id in s.uploads && OnceAdvanced(s.uploads[id], version) && Issued(events, id, version)
    ensures id in Run(s, events).uploads && OnceAdvanced(Run(s, events).uploads[id], version)
    decreases events
  {
    hide Coupled, Next, OnceAdvanced;
    if events != [] {
      NextOnceAdvanced(s, events[0], id, version);
      NextKeeps(s, events[0]);
      VersionAdvancesOnce(Next(s, events[0]), events[1..], id, version);
    }
  }

  /** Some callback for `id` with this version is accepted on its arrival in the run. */
  ghost predicate Carried(s: Control, events: seq<Event>, id: nat, version: int)
    decreases events
  {
    events != [] &&
    (var e := events[0];
     || (e.Reported? && e.callback.id == id && e.callback.version == version && Accepted(s, e.callback))
     || Carried(Next(s, e), events[1..], id, version))
  }

  /** The version stays within a bound exactly when no accepted callback of the run carries that bound. */
  lemma {:induction false} VersionStaysExactly(s: Control, events: seq<Event>, id: nat, bound: int)
    requires Coupled(s) && id in s.uploads && s.uploads[id].version <= bound
    ensures id in Run(s, events).uploads
    ensures Run(s, events).uploads[id].version <= bound <==> !Carried(s, events, id, bound)
    decreases events
  {
    if events != [] {
      var s' := Next(s, events[0]);
      VersionMovesExactly(s, events[0], id);
      NextKeeps(s, events[0]);
      hide Next, Coupled;
      if s'.uploads[id].version <= bound {
        VersionStaysExactly(s', events[1..], id, bound);
      } else {
        VerdictIsFinal(s', events[1..]);
      }
    }
  }

  /**
   The version advances exactly once in a run if and only if the run holds an accepted
   callback with the version of the start and none with the version that one produced.
   */
  lemma VersionAdvancesOnceExactly(s: Control, events: seq<Event>, id: nat)
    requires Coupled(s) && id in s.uploads
    ensures id in Run(s, events).uploads
    ensures var version := s.uploads[id].version;
      Run(s, events).uploads[id].version == version + 1
      <==> Carried(s, events, id, version) && !Carried(s, events, id, version + 1)
  {
    VersionStaysExactly(s, events, id, s.uploads[id].version);
    VersionStaysExactly(s, events, id, s.uploads[id].version + 1);
  }

  /** A charge once settled stays settled through every later event. */
  lemma {:induction false} BilledForGood(s: Control, events: seq<Event>, id: nat)
    requires Coupled(s) && id in s.uploads && Billed(s, id)
    ensures id in Run(s, events).uploads && Billed(Run(s, events), id)
    decreases events
  {
    hide Coupled, Next, Billed;
    if events != [] {
      NextBilled(s, events[0], id);
      NextKeeps(s, events[0]);
      BilledForGood(Next(s, events[0]), events[1..], id);
    }
  }

  lemma NextBilled(s: Control, e: Event, id: nat)
    requires Coupled(s) && id in s.uploads && Billed(s, id)
    ensures id in Next(s, e).uploads && Billed(Next(s, e), id)
  {
    hide Inv, Reserve, Settle, Refund, Ledgers.Apply;
    match e
    case Created(newId, request, limits, now) =>
      var r := Normalized(request);
      if newId !in s.uploads && Create(s, newId, request, limits, now).Ok? && s.transfers[r.transfer].owner.User? {
        ReserveEffect(s.ledger, newId, s.transfers[r.transfer].owner.id, r.length, limits.initialTraffic, now);
      }
    case Reported(c) =>
      if Settle(s.ledger, c.id).Ok? {
        SettleEffect(s.ledger, c.id);
      }
    case Finished(local) =>
      if Settle(s.ledger, local).Ok? {
        SettleEffect(s.ledger, local);
      }
    case Claimed(_) =>
    case Scanned(local, _, _) =>
      if Refund(s.ledger, local).Ok? {
        RefundEffect(s.ledger, local);
      }
    case Removed(victim, _) =>
      if Refund(s.ledger, victim).Ok? {
        RefundEffect(s.ledger, victim);
      }
    case Other(step) =>
      if External(step) {
        ExternalCharges(s.ledger, step);
      }
  }

  /**
   An accepted callback delivered again after any later run is accepted exactly when
   the upload was not deleted and no callback with a newer version moved the row on;
   it then changes nothing.
   */
  lemma LateRetry(s: Control, c: Callback, events: seq<Event>)
    requires Coupled(s) && Complete(s, c).Ok?
    ensures var later := Run(Complete(s, c).value, events);
      && c.id in later.uploads
      && (Complete(later, c).Ok? <==>
           later.uploads[c.id].status != Deleted && later.uploads[c.id].version == c.version + 1)
      && (Complete(later, c).Ok? ==> Complete(later, c).value == later)
  {
    hide Inv, Settle, Refund, Complete, Run, Next;
    CallbackCommitsExactly(s, c);
    var first := Complete(s, c).value;
    VerdictIsFinal(first, events);
    RunKeepsCoupled(first, events);
    BilledForGood(first, events, c.id);
    var later := Run(first, events);
    CallbackCommitsExactly(later, c);
    ReleasedForGood(first, events, c.id);
    if Accepted(later, c) {
      SettledTwice(later.ledger, c.id);
      assert later.uploads[c.id := Recorded(later.uploads[c.id], c)] == later.uploads;
    }
  }

  lemma SettledTwice(l: Ledger, id: nat)
    requires id in l.charges ==> l.charges[id].status == Settled || l.charges[id].status == Grandfathered
    ensures Settle(l, id) == Ok(l)
  {
  }

  lemma {:induction false} ReleasedForGood(s: Control, events: seq<Event>, id: nat)
    requires id in s.uploads
    ensures id in Run(s, events).uploads
    ensures s.uploads[id].released ==> Run(s, events).uploads[id].released
    decreases events
  {
    if events != [] {
      NextReleased(s, events[0], id);
      hide Next;
      ReleasedForGood(Next(s, events[0]), events[1..], id);
    }
  }

  lemma NextReleased(s: Control, e: Event, id: nat)
    requires id in s.uploads
    ensures id in Next(s, e).uploads && (s.uploads[id].released ==> Next(s, e).uploads[id].released)
  {
    hide Settle, Refund, Reserve, Ledgers.Apply;
  }

  /**
   Without that condition the version can advance twice: a callback that carries the
   version the first one produced is normalised as an older release's row, and the
   first callback's own retry is then turned away.
   */
  lemma NewerVersionMovesTwice(s: Control, c: Callback)
    requires Coupled(s) && Complete(s, c).Ok?
    ensures var first := Complete(s, c).value;
      var newer := c.(version := c.version + 1);
      && Complete(first, newer).Ok?
      && Complete(first, newer).value.uploads[c.id].version == c.version + 2
      && Complete(Complete(first, newer).value, c).Err?
  {
    hide Inv, Settle, Refund, Complete, Coupled;
    CallbackCommitsExactly(s, c);
    var first := Complete(s, c).value;
    var newer := c.(version := c.version + 1);
    CallbackCommitsExactly(first, newer);
    CallbackCommitsExactly(Complete(first, newer).value, c);
  }

  /** A guest's upload on node 7, callbacks for versions 1 and 2: the version reaches 3. */
  lemma DoubleAdvanceHappens()
    ensures var empty := Control(map[1 := Transfer(true, 100, Guest, 0, 0)], map[], Ledger(map[], map[], map[], map[]));
      var created := Create(empty, 5, Request(1, 1, 1, 1, 10, Node(7, 5), 1), Limits(10, 1000, 0, true), 0);
      var c := Callback(5, 7, 5, 1, Ready, 99);
      && Coupled(empty) && created.Ok? && Complete(created.value, c).Ok?
      && Complete(Complete(created.value, c).value, c.(version := 2)).Ok?
      && Complete(Complete(created.value, c).value, c.(version := 2)).value.uploads[5].version == 3
  {
    var transfers := map[1 := Transfer(true, 100, Guest, 0, 0)];
    var empty := Control(transfers, map[], Ledger(map[], map[], map[], map[]));
    var request := Request(1, 1, 1, 1, 10, Node(7, 5), 1);
    EmptyControlIsCoupled(transfers);
    CreateKeeps(empty, 5, request, Limits(10, 1000, 0, true), 0);
    var s := Create(empty, 5, request, Limits(10, 1000, 0, true), 0).value;
    NewerVersionMovesTwice(s, Callback(5, 7, 5, 1, Ready, 99));
  }

  /** Before the first upload: transfers only. */
  lemma EmptyControlIsCoupled(transfers: map<nat, Transfer>)
    ensures Coupled(Control(transfers, map[], Ledger(map[], map[], map[], map[])))
  {
    Ledgers.EmptyLedgerIsSound();
  }

  // ---------- creation retries ----------

  lemma {:induction false} RunSplit(s: Control, first: seq<Event>, rest: seq<Event>)
    ensures Run(s, first + rest) == Run(Run(s, first), rest)
    decreases first
  {
    if first == [] {
      assert first + rest == rest;
    } else {
      assert (first + rest)[0] == first[0] && (first + rest)[1..] == first[1..] + rest;
      RunSplit(Next(s, first[0]), first[1..], rest);
    }
  }

  /**
   Taking any repeated creation of an existing upload out of a run leaves the same rows,
   the same balances and the same holds at the end: retries charge nothing.
   */
  lemma CreateRetryChargesNothing(
      s: Control, id: nat, before: seq<Event>, request: Request, limits: Limits, now: int, rest: seq<Event>)
    requires id in s.uploads
    ensures Run(s, before + [Created(id, request, limits, now)] + rest) == Run(s, before + rest)
  {
    VerdictIsFinal(s, before);
    var there, again := Run(s, before), [Created(id, request, limits, now)];
    assert id in there.uploads;
    assert Run(there, again) == there by {
      hide Repeats, Reserve;
      assert Next(there, again[0]) == there;
      assert Run(there, again) == Run(Next(there, again[0]), again[1..]) && again[1..] == [];
    }
    RunSplit(s, before, again);
    RunSplit(s, before + again, rest);
    RunSplit(s, before, rest);
  }

  /**
   An exact retry of a committed creation succeeds, and then changes nothing, until the
   row is deleted or completed remotely.
   */
  lemma CreateRetrySucceeds(
      s: Control, id: nat, request: Request, limits: Limits, now: int, events: seq<Event>, limits': Limits, now': int)
    requires Create(s, id, request, limits, now).Ok? && id !in s.uploads
    ensures var later := Run(Create(s, id, request, limits, now).value, events);
      && id in later.uploads
      && (Create(later, id, request, limits', now') == Ok(later) <==>
            && later.uploads[id].status != Deleted
            && later.uploads[id].version == Normalized(request).version)
  {
    hide Run, Reserve;
    TransfersStay(Create(s, id, request, limits, now).value, events);
    VerdictIsFinal(Create(s, id, request, limits, now).value, events);
  }

  /** No event drops a transfer. */
  lemma {:induction false} TransfersStay(s: Control, events: seq<Event>)
    ensures s.transfers.Keys <= Run(s, events).transfers.Keys
    decreases events
  {
    if events != [] {
      var s' := Next(s, events[0]);
      assert s.transfers.Keys <= s'.transfers.Keys by {
        hide Settle, Refund, Reserve, Ledgers.Apply;
      }
      hide Next;
      TransfersStay(s', events[1..]);
    }
  }
}
