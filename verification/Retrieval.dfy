/**
 Retrieval sessions and download reservations. A transfer has a limited number of
 slots; a session takes one when it is created and hands it back only while it is
 still provisional. A reservation is the ticket for one file; streaming it makes
 its session active. Every function is one transaction of the store.
 */
module Retrieval {
  import opened Basics
  import opened Sums
  import opened DownloadReports

  /** 'active', 'exhausted', 'expired' and 'revoked' transfers. */
  datatype TransferStatus = Available | Exhausted | Expired | Revoked

  datatype Transfer = Transfer(status: TransferStatus, expires: int, retrieval: bool, max: int, downloads: int)

  datatype SessionStatus = Provisional | Active | Closed | Released

  datatype Session = Session(transfer: nat, recipient: nat, status: SessionStatus, created: int, expires: int,
    hard: int)

  /** 'reserved', 'consuming', 'settled' and 'released' reservations. */
  datatype Stage = Held | Consuming | Settled | Dropped

  datatype Reservation = Reservation(upload: nat, transfer: nat, session: Option<nat>, recipient: Option<nat>,
    stage: Stage, actual: int, expires: int)

  datatype Runtime = Runtime(lease: int, hard: int)

  datatype Upload = Upload(transfer: nat, ready: bool, length: int, node: bool)

  datatype State = State(
    transfers: map<nat, Transfer>,
    sessions: map<nat, Session>,
    reservations: map<nat, Reservation>,
    runtimes: map<nat, Runtime>,
    uploads: map<nat, Upload>)

  datatype Error = NotFound | Conflict | DownloadLimit | QuotaExceeded | Malformed | SessionNotActive

  datatype Outcome = Done | Failed(error: Error)

  /** The committed state and the answer; a rolled-back transaction returns its own input. */
  datatype Reply = Reply(state: State, outcome: Outcome)

  const LEASE := 120
  const MAX_DURATION := 172800
  const PROVISIONAL_LIFETIME := 300
  const SESSION_LIFETIME := 1800

  predicate Serving(t: Transfer, now: int) {
    t.expires > now && (t.status == Available || t.status == Exhausted)
  }

  predicate Usable(s: Session, transfer: nat, now: int) {
    s.transfer == transfer && (s.status == Provisional || s.status == Active) && s.expires > now && s.hard > now
  }

  /** Some reservation of the session is streaming. */
  predicate Streaming(s: State, session: nat) {
    exists r :: r in s.reservations && s.reservations[r].session == Some(session)
      && s.reservations[r].stage == Consuming
  }

  // ---------- tickets ----------

  predicate Reusable(s: State, id: nat, transfer: nat, recipient: nat, now: int) {
    id in s.sessions && s.sessions[id].status == Provisional && s.sessions[id].recipient == recipient
      && Usable(s.sessions[id], transfer, now)
  }

  /** A row the query for a recipient's provisional session may return: the newest one, or none if there is none. */
  predicate QueryReturns(s: State, transfer: nat, recipient: Option<nat>, now: int, row: Option<nat>) {
    if recipient.None? then row.None? else
      match row
      case None => forall id :: id in s.sessions ==> !Reusable(s, id, transfer, recipient.value, now)
      case Some(id) =>
        && Reusable(s, id, transfer, recipient.value, now)
        && forall other :: other in s.sessions && Reusable(s, other, transfer, recipient.value, now) ==>
             s.sessions[other].created <= s.sessions[id].created
  }

  datatype Request = Request(transfer: nat, upload: nat, recipient: Option<nat>, session: Option<nat>, lifetime: int)

  datatype Opened = Opened(state: State, session: nat) | Refused(error: Error)

  /** Finds the session a ticket belongs to, or takes a slot for a new one. */
  function OpenSession(s: State, q: Request, row: Option<nat>, newSession: nat, now: int): Opened {
    if q.transfer !in s.transfers || !Serving(s.transfers[q.transfer], now) then Refused(NotFound)
    else if !s.transfers[q.transfer].retrieval then Refused(Conflict)
    else
      var t := s.transfers[q.transfer];
      match (if q.session.Some? then q.session else row)
      case Some(id) =>
        if id in s.sessions && Usable(s.sessions[id], q.transfer, now) then Opened(s, id) else Refused(NotFound)
      case None =>
        if t.status != Available || t.downloads >= t.max then Refused(DownloadLimit)
        else if newSession in s.sessions then Refused(Conflict)
        else
          var status := if t.downloads + 1 >= t.max then Exhausted else t.status;
          var created := Session(q.transfer, if q.recipient.Some? then q.recipient.value else 0, Provisional, now,
                                 now + PROVISIONAL_LIFETIME, now + SESSION_LIFETIME);
          Opened(s.(transfers := s.transfers[q.transfer := t.(status := status, downloads := t.downloads + 1)],
                    sessions := s.sessions[newSession := created]), newSession)
  }

  /** Live reservations of one session for one upload; an index allows at most one. */
  function LiveTickets(s: State, session: nat, upload: nat): set<nat> {
    set r | r in s.reservations && s.reservations[r].session == Some(session) && s.reservations[r].upload == upload
      && (s.reservations[r].stage == Held || s.reservations[r].stage == Consuming)
  }

  function IssueTicket(s: State, q: Request, session: nat, newReservation: nat, now: int): Reply
    requires session in s.sessions
  {
    if q.upload !in s.uploads || s.uploads[q.upload].transfer != q.transfer || !s.uploads[q.upload].ready
      then Reply(s, Failed(NotFound))
    else
      var expires := Min(now + q.lifetime, s.sessions[session].expires);
      var live := LiveTickets(s, session, q.upload);
      if live != {} then
        var r := Least(live);
        if s.reservations[r].stage == Consuming || s.reservations[r].expires <= now then Reply(s, Failed(Conflict))
        else Reply(s.(reservations := s.reservations[r := s.reservations[r].(expires := expires)]), Done)
      else if newReservation in s.reservations then Reply(s, Failed(Conflict))
      else
        var ticket := Reservation(q.upload, q.transfer, Some(session), None, Held, 0, expires);
        Reply(s.(reservations := s.reservations[newReservation := ticket]), Done)
  }

  function CreateRetrieval(
      s: State, q: Request, row: Option<nat>, newSession: nat, newReservation: nat, now: int): Reply {
    if q.lifetime <= 0 then Reply(s, Failed(Conflict)) else
      match OpenSession(s, q, row, newSession, now)
      case Refused(e) => Reply(s, Failed(e))
      case Opened(found, session) =>
        var reply := IssueTicket(found, q, session, newReservation, now);
        if reply.outcome == Done then reply else Reply(s, reply.outcome)
  }

  /** Tickets of transfers without sessions; the server sends only those here. */
  function CreateLegacy(s: State, q: Request, newReservation: nat, now: int): Reply {
    if q.lifetime <= 0 || q.transfer !in s.transfers || s.transfers[q.transfer].retrieval
      then Reply(s, Failed(Conflict)) else
      var mine := set r | q.recipient.Some? && r in s.reservations && s.reservations[r].transfer == q.transfer
                          && s.reservations[r].upload == q.upload && s.reservations[r].recipient == q.recipient
                          && s.reservations[r].stage == Held;
      var reservations := map r | r in s.reservations ::
        if r in mine then
          if s.reservations[r].expires <= now then s.reservations[r].(stage := Dropped)
            else s.reservations[r].(expires := now + q.lifetime)
        else s.reservations[r];
      if exists r :: r in mine && s.reservations[r].expires > now then Reply(s.(reservations := reservations), Done)
      else if newReservation in s.reservations then Reply(s, Failed(Conflict))
      else
        var ticket := Reservation(q.upload, q.transfer, None, q.recipient, Held, 0, now + q.lifetime);
        Reply(s.(reservations := reservations[newReservation := ticket]), Done)
  }

  // ---------- streaming ----------

  predicate BeginAllowed(s: State, r: Reservation, now: int) {
    && r.transfer in s.transfers
    && match r.session
       case None =>
         var t := s.transfers[r.transfer];
         t.status == Available && t.expires > now && t.downloads < t.max
       case Some(session) =>
         session in s.sessions && Usable(s.sessions[session], r.transfer, now) && Serving(s.transfers[r.transfer], now)
  }

  function Begin(s: State, id: nat, upload: Option<nat>, now: int): Reply {
    if id !in s.reservations then Reply(s, Failed(NotFound)) else
      var r := s.reservations[id];
      if r.stage != Held || r.expires <= now || (upload.Some? && upload.value != r.upload)
        then Reply(s, Failed(Conflict))
      else if !BeginAllowed(s, r, now) then
        Reply(s.(reservations := s.reservations[id := r.(stage := Dropped)]), Failed(QuotaExceeded))
      else
        var hard := now + MAX_DURATION;
        var begun := s.(reservations := s.reservations[id := r.(stage := Consuming, expires := hard)],
                        runtimes := s.runtimes[id := Runtime(Min(now + LEASE, hard), hard)]);
        match r.session
        case None =>
          var t := s.transfers[r.transfer];
          Reply(begun.(transfers := s.transfers[r.transfer := t.(downloads := t.downloads + 1)]), Done)
        case Some(session) =>
          var a := s.sessions[session];
          Reply(begun.(sessions := s.sessions[session := a.(status := Active, expires := a.hard)]), Done)
  }

  predicate TouchMatches(s: State, session: Option<nat>) {
    session.Some? ==> session.value in s.sessions && s.sessions[session.value].status == Active
  }

  function ReadyFiles(s: State, transfer: nat): set<nat> {
    set u | u in s.uploads && s.uploads[u].transfer == transfer && s.uploads[u].ready
  }

  function CompletedFiles(s: State, session: nat): set<nat> {
    set r | r in s.reservations && s.reservations[r].session == Some(session) && s.reservations[r].stage == Settled
      && s.reservations[r].upload in s.uploads && s.reservations[r].actual >= s.uploads[s.reservations[r].upload].length
      :: s.reservations[r].upload
  }

  /** Closes a session once as many files were completed as the transfer has ready. */
  function CloseCompleted(s: State, session: Option<nat>, transfer: nat, now: int): State {
    match session
    case None => s
    case Some(id) =>
      var ready := ReadyFiles(s, transfer);
      if ready == {} || |CompletedFiles(s, id)| < |ready| || id !in s.sessions || s.sessions[id].status != Active
        || Streaming(s, id) then s
      else s.(sessions := s.sessions[id := s.sessions[id].(status := Closed, expires := now)])
  }

  /** What a report means for one reservation of an upload. */
  function Reading(u: Upload, reported: int, forceFinal: bool): Report {
    if forceFinal || !u.node then
      if 0 <= reported <= u.length then Final(reported) else Report.Malformed
    else
      var d := Decode(u.length, reported);
      if d.Malformed? || d.bytes < 0 || d.bytes > u.length then Report.Malformed else d
  }

  function Finish(s: State, id: nat, actual: int, now: int): Reply
    requires id in s.reservations
  {
    var r := s.reservations[id];
    var settled := s.(reservations := s.reservations[id := r.(stage := Settled, actual := actual)]);
    if r.stage != Consuming then Reply(settled, Done)
    else if actual > 0 && !TouchMatches(s, r.session) then Reply(s, Failed(SessionNotActive))
    else if actual > 0 then Reply(CloseCompleted(settled, r.session, r.transfer, now), Done)
    else if r.session.None? && r.transfer in s.transfers then
      var t := s.transfers[r.transfer];
      Reply(settled.(transfers := s.transfers[r.transfer := t.(downloads := Max(t.downloads - 1, 0))]), Done)
    else Reply(settled, Done)
  }

  /** The runtime row of a stream, created on the fly for streams of older releases. */
  function WithRuntime(s: State, id: nat, now: int): State
    requires id in s.reservations
  {
    if id in s.runtimes then s else
      var hard := now + MAX_DURATION;
      s.(runtimes := s.runtimes[id := Runtime(Min(now + LEASE, hard), hard)],
         reservations := s.reservations[id := s.reservations[id].(expires := hard)])
  }

  function RecordProgress(s: State, id: nat, actual: int, now: int): Reply
    requires id in s.reservations && id in s.runtimes
  {
    var r := s.reservations[id];
    var hard := s.runtimes[id].hard;
    if actual > 0 && !TouchMatches(s, r.session) then Reply(s, Failed(SessionNotActive))
    else Reply(s.(reservations := s.reservations[id := r.(actual := Max(r.actual, actual))],
                  runtimes := s.runtimes[id := Runtime(Min(now + LEASE, hard), hard)]), Done)
  }

  function Settle(s: State, id: nat, reported: int, forceFinal: bool, now: int): Reply {
    if id !in s.reservations || s.reservations[id].upload !in s.uploads then Reply(s, Failed(NotFound)) else
      var r := s.reservations[id];
      var reading := Reading(s.uploads[r.upload], reported, forceFinal);
      if reading.Malformed? then Reply(s, Failed(Error.Malformed))
      else if r.stage == Dropped then Reply(s, Done)
      else if r.stage == Settled then Reply(s, if r.actual == reading.bytes then Done else Failed(Conflict))
      else if r.stage == Consuming && reading.Progress? then
        if reading.bytes < r.actual then Reply(s, Failed(Conflict)) else
          var running := WithRuntime(s, id, now);
          var reply := if now < running.runtimes[id].hard then RecordProgress(running, id, reading.bytes, now)
                       else Finish(running, id, Max(reading.bytes, r.actual), now);
          if reply.outcome == Done then reply else Reply(s, reply.outcome)
      else Finish(s, id, reading.bytes, now)
  }

  // ---------- handing slots back ----------

  function HandBack(t: Transfer, slots: nat, now: int): Transfer {
    if slots == 0 then t else
      t.(downloads := Max(t.downloads - slots, 0),
         status := if t.status == Exhausted && t.expires > now then Available else t.status)
  }

  function Abort(s: State, id: nat, releaseSession: bool, now: int): Reply {
    if id !in s.reservations then Reply(s, Failed(NotFound)) else
      var r := s.reservations[id];
      var dropped := if r.stage == Held then s.(reservations := s.reservations[id := r.(stage := Dropped)]) else s;
      if !releaseSession || r.session.None? || r.session.value !in s.sessions
         || s.sessions[r.session.value].status != Provisional || Streaming(dropped, r.session.value)
      then Reply(dropped, Done)
      else
        var session := s.sessions[r.session.value].(status := Released, expires := now);
        var released := dropped.(sessions := s.sessions[r.session.value := session]);
        Reply(if r.transfer in s.transfers
              then released.(transfers := s.transfers[r.transfer := HandBack(s.transfers[r.transfer], 1, now)])
                else released, Done)
  }

  /** Provisional sessions whose time is up. */
  predicate Lapsed(s: State, session: nat, now: int) {
    session in s.sessions && s.sessions[session].status == Provisional && s.sessions[session].expires <= now
  }

  function LapsedOf(s: State, transfer: nat, now: int): set<nat> {
    set id | id in s.sessions && Lapsed(s, id, now) && !Streaming(s, id) && s.sessions[id].transfer == transfer
  }

  /** Tickets of lapsed sessions, lapsed sessions themselves, and finished active ones, in one transaction. */
  function SweepSessions(s: State, now: int): State {
    State(
      map t | t in s.transfers :: HandBack(s.transfers[t], |LapsedOf(s, t, now)|, now),
      map id | id in s.sessions ::
        var a := s.sessions[id];
        if Lapsed(s, id, now) && !Streaming(s, id) then a.(status := Released, expires := now)
        else if a.status == Active && a.expires <= now && !Streaming(s, id) then a.(status := Closed)
        else a,
      map r | r in s.reservations ::
        if s.reservations[r].stage == Held && s.reservations[r].session.Some?
          && Lapsed(s, s.reservations[r].session.value, now)
        then s.reservations[r].(stage := Dropped) else s.reservations[r],
      s.runtimes, s.uploads)
  }

  /** Unused tickets past their time. */
  function SweepTickets(s: State, now: int): State {
    s.(reservations := map r | r in s.reservations ::
         if s.reservations[r].stage == Held && s.reservations[r].expires <= now
           then s.reservations[r].(stage := Dropped) else s.reservations[r])
  }

  function BackfillRuntimes(s: State, now: int): State {
    s.(runtimes := map r | r in s.runtimes.Keys + s.reservations.Keys
      && (r in s.runtimes || s.reservations[r].stage == Consuming) ::
         if r in s.runtimes then s.runtimes[r] else Runtime(now + LEASE, now + MAX_DURATION))
  }

  function SyncDeadlines(s: State): State {
    s.(reservations := map r | r in s.reservations ::
         if s.reservations[r].stage == Consuming && r in s.runtimes
           then s.reservations[r].(expires := s.runtimes[r].hard) else s.reservations[r])
  }

  // ---------- the rest of a transfer's life ----------

  function CreateTransfer(s: State, id: nat, expires: int, retrieval: bool, max: int): State {
    if id in s.transfers || max < 1 then s
    else s.(transfers := s.transfers[id := Transfer(Available, expires, retrieval, max, 0)])
  }

  function RevokeTransfer(s: State, id: nat): State {
    if id !in s.transfers || s.transfers[id].status != Available then s
    else s.(transfers := s.transfers[id := s.transfers[id].(status := Revoked)])
  }

  function ExpireTransfers(s: State, now: int): State {
    s.(transfers := map t | t in s.transfers ::
         if s.transfers[t].status == Available && s.transfers[t].expires <= now then s.transfers[t].(status := Expired)
           else s.transfers[t])
  }

  function PublishUpload(s: State, id: nat, transfer: nat, length: int, node: bool): State {
    if id in s.uploads then s else s.(uploads := s.uploads[id := Upload(transfer, false, length, node)])
  }

  /** A scan verdict or the cleanup worker changes whether a file can be fetched. */
  function SetReady(s: State, id: nat, ready: bool): State {
    if id !in s.uploads then s else s.(uploads := s.uploads[id := s.uploads[id].(ready := ready)])
  }

  datatype Step =
    | NewTransfer(id: nat, expires: int, retrieval: bool, max: int)
    | NewUpload(id: nat, transfer: nat, length: int, node: bool)
    | Readiness(id: nat, ready: bool)
    | RetrievalTicket(q: Request, row: Option<nat>, newSession: nat, newReservation: nat)
    | LegacyTicket(q: Request, newReservation: nat)
    | Start(id: nat, upload: Option<nat>)
    | Tell(id: nat, reported: int, forceFinal: bool)
    | GiveUp(id: nat, releaseSession: bool)
    | SessionSweep
    | TicketSweep
    | RuntimeSweep
    | DeadlineSweep
    | Revocation(id: nat)
    | ExpirySweep

  function Apply(s: State, step: Step, now: int): State {
    match step
    case NewTransfer(id, expires, retrieval, max) => CreateTransfer(s, id, expires, retrieval, max)
    case NewUpload(id, transfer, length, node) => PublishUpload(s, id, transfer, length, node)
    case Readiness(id, ready) => SetReady(s, id, ready)
    case RetrievalTicket(q, row, newSession, newReservation) =>
      if q.session.None? && !QueryReturns(s, q.transfer, q.recipient, now, row) then s
      else CreateRetrieval(s, q, row, newSession, newReservation, now).state
    case LegacyTicket(q, newReservation) => CreateLegacy(s, q, newReservation, now).state
    case Start(id, upload) => Begin(s, id, upload, now).state
    case Tell(id, reported, forceFinal) => Settle(s, id, reported, forceFinal, now).state
    case GiveUp(id, releaseSession) => Abort(s, id, releaseSession, now).state
    case SessionSweep => SweepSessions(s, now)
    case TicketSweep => SweepTickets(s, now)
    case RuntimeSweep => BackfillRuntimes(s, now)
    case DeadlineSweep => SyncDeadlines(s)
    case Revocation(id) => RevokeTransfer(s, id)
    case ExpirySweep => ExpireTransfers(s, now)
  }
}
