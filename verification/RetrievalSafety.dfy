/**
 Slot accounting and the session/reservation link over every run with a
 non-decreasing clock.
 */
module RetrievalSafety {
  import opened Basics
  import opened Sums
  import opened DownloadReports
  import opened Retrieval

  /** Sessions that hold a slot of the transfer. */
  function Taken(sessions: map<nat, Session>, transfer: nat): set<nat> {
    set id | id in sessions && sessions[id].transfer == transfer && sessions[id].status != Released
  }

  predicate ReservationLinked(s: State, r: Reservation) {
    && r.transfer in s.transfers
    && match r.session
       case None => !s.transfers[r.transfer].retrieval
       case Some(id) => id in s.sessions && s.sessions[id].transfer == r.transfer
  }

  ghost predicate Linked(s: State) {
    && (forall id :: id in s.sessions ==>
         s.sessions[id].transfer in s.transfers && s.transfers[s.sessions[id].transfer].retrieval)
    && (forall r :: r in s.reservations ==> ReservationLinked(s, s.reservations[r]))
  }

  /** A streaming reservation that belongs to a session belongs to an active one. */
  ghost predicate StreamsAreActive(s: State) {
    forall r :: r in s.reservations && s.reservations[r].stage == Consuming ==>
      TouchMatches(s, s.reservations[r].session)
  }

  /** The counter of one retrieval transfer against its sessions, at time `clock`. */
  predicate SlotsAgree(s: State, t: nat, clock: int)
    requires t in s.transfers
  {
    var x := s.transfers[t];
    && x.downloads == |Taken(s.sessions, t)| <= x.max
    && (x.status == Available ==> x.downloads < x.max)
    && (x.status == Exhausted && x.expires > clock ==> x.downloads == x.max)
  }

  ghost predicate SlotsExact(s: State, clock: int) {
    forall t :: t in s.transfers && s.transfers[t].retrieval ==> SlotsAgree(s, t, clock)
  }

  /** Leases never pass the deadline, and only streams and finished streams have one. */
  ghost predicate LeasesBounded(s: State) {
    && (forall r :: r in s.runtimes ==> s.runtimes[r].lease <= s.runtimes[r].hard)
    && (forall r :: r in s.runtimes ==> r in s.reservations && s.reservations[r].stage != Held)
  }

  ghost predicate Inv(s: State, clock: int) {
    Linked(s) && StreamsAreActive(s) && SlotsExact(s, clock) && LeasesBounded(s)
  }

  // ---------- slots ----------

  lemma TakenPlus(sessions: map<nat, Session>, id: nat, session: Session, t: nat)
    requires id !in sessions && session.status != Released
    ensures |Taken(sessions[id := session], t)| == |Taken(sessions, t)| + if session.transfer == t then 1 else 0
  {
    assert Taken(sessions[id := session], t) == Taken(sessions, t) + if session.transfer == t then {id} else {};
  }

  lemma TakenMinus(sessions: map<nat, Session>, id: nat, session: Session, t: nat)
    requires id in sessions && sessions[id].status != Released
    requires session == sessions[id].(status := Released, expires := session.expires)
    ensures |Taken(sessions[id := session], t)| == |Taken(sessions, t)| - if session.transfer == t then 1 else 0
  {
    assert Taken(sessions[id := session], t) == Taken(sessions, t) - if session.transfer == t then {id} else {};
    if session.transfer == t {
      assert id in Taken(sessions, t);
    }
  }

  /** A session that keeps its transfer and does not enter or leave `Released` keeps every count. */
  lemma TakenSame(sessions: map<nat, Session>, id: nat, session: Session, t: nat)
    requires id in sessions && session.transfer == sessions[id].transfer
    requires (session.status == Released) == (sessions[id].status == Released)
    ensures Taken(sessions[id := session], t) == Taken(sessions, t)
  {
  }

  /** Nothing a transfer counts has moved. */
  lemma SlotsUntouched(s: State, s': State, clock: int, now: int)
    requires SlotsExact(s, clock) && clock <= now
    requires forall t :: t in s'.transfers && s'.transfers[t].retrieval ==>
      t in s.transfers && s'.transfers[t] == s.transfers[t]
    requires forall t :: t in s'.transfers ==> Taken(s'.sessions, t) == Taken(s.sessions, t)
    ensures SlotsExact(s', now)
  {
    forall t | t in s'.transfers && s'.transfers[t].retrieval ensures SlotsAgree(s', t, now) {
      assert SlotsAgree(s, t, clock);
    }
  }

  lemma Later(s: State, clock: int, now: int)
    requires Inv(s, clock) && clock <= now
    ensures Inv(s, now)
  {
    SlotsUntouched(s, s, clock, now);
  }

  // ---------- the few ways a transaction moves the tables ----------

  /** One reservation keeps its links, and neither starts to stream nor returns to `Held`. */
  predicate Tame(r: Reservation, r': Reservation) {
    && r'.upload == r.upload && r'.transfer == r.transfer && r'.session == r.session
    && (r'.stage == Consuming ==> r.stage == Consuming) && (r'.stage == Held ==> r.stage == Held)
  }

  ghost predicate ReservationsTame(s: State, s': State) {
    forall r :: r in s'.reservations ==>
      if r in s.reservations then Tame(s.reservations[r], s'.reservations[r])
      else ReservationLinked(s, s'.reservations[r]) && s'.reservations[r].stage == Held && r !in s'.runtimes
  }

  lemma ReservationsMoved(s: State, s': State, now: int)
    requires Inv(s, now) && s'.transfers == s.transfers && s'.sessions == s.sessions && ReservationsTame(s, s')
    requires s.reservations.Keys <= s'.reservations.Keys
    requires forall r :: r in s'.runtimes ==> s'.runtimes[r].lease <= s'.runtimes[r].hard
    requires forall r :: r in s'.runtimes ==>
      r in s.runtimes || (r in s'.reservations && s'.reservations[r].stage != Held)
    ensures Inv(s', now)
  {
    hide SlotsAgree;
    assert SlotsExact(s', now) by {
      SlotsUntouched(s, s', now, now);
    }
    assert Linked(s') by {
      forall r | r in s'.reservations ensures ReservationLinked(s', s'.reservations[r]) {
        if r in s.reservations {
          assert ReservationLinked(s, s.reservations[r]);
        }
      }
    }
    forall r | r in s'.reservations && s'.reservations[r].stage == Consuming
      ensures TouchMatches(s', s'.reservations[r].session)
    {
      assert TouchMatches(s, s.reservations[r].session);
    }
  }

  /** A session changes without giving up its slot, and stops being active only when nothing streams. */
  lemma SessionMoved(s: State, id: nat, session: Session, now: int)
    requires Inv(s, now) && id in s.sessions && session.transfer == s.sessions[id].transfer
    requires session.status != Released && s.sessions[id].status != Released
    requires session.status == Active || !Streaming(s, id)
    ensures Inv(s.(sessions := s.sessions[id := session]), now)
  {
    hide SlotsAgree;
    var s' := s.(sessions := s.sessions[id := session]);
    assert SlotsExact(s', now) by {
      forall t | t in s'.transfers ensures Taken(s'.sessions, t) == Taken(s.sessions, t) {
        TakenSame(s.sessions, id, session, t);
      }
      SlotsUntouched(s, s', now, now);
    }
    Relinked(s, s');
  }

  /** Links and streams survive when sessions keep their transfers and active ones stay active. */
  lemma Relinked(s: State, s': State)
    requires Linked(s) && s'.reservations == s.reservations
    requires forall id :: id in s'.sessions ==>
      s'.sessions[id].transfer in s'.transfers && s'.transfers[s'.sessions[id].transfer].retrieval
    requires forall id :: id in s.sessions ==> id in s'.sessions && s'.sessions[id].transfer == s.sessions[id].transfer
    requires forall t :: t in s.transfers ==> t in s'.transfers && s'.transfers[t].retrieval == s.transfers[t].retrieval
    ensures Linked(s')
    ensures StreamsAreActive(s) && (forall id :: id in s.sessions && s.sessions[id].status == Active ==>
        s'.sessions[id].status == Active || !Streaming(s, id)) ==>
      StreamsAreActive(s')
  {
    forall r | r in s'.reservations ensures ReservationLinked(s', s'.reservations[r]) {
      assert ReservationLinked(s, s.reservations[r]);
    }
    if StreamsAreActive(s) && forall id :: id in s.sessions && s.sessions[id].status == Active ==>
      s'.sessions[id].status == Active || !Streaming(s, id) {
      forall r | r in s'.reservations && s'.reservations[r].stage == Consuming
        ensures TouchMatches(s', s'.reservations[r].session)
      {
        assert TouchMatches(s, s.reservations[r].session);
      }
    }
  }

  lemma LegacyCounterMoved(s: State, t: nat, downloads: int, now: int)
    requires Inv(s, now) && t in s.transfers && !s.transfers[t].retrieval
    ensures Inv(s.(transfers := s.transfers[t := s.transfers[t].(downloads := downloads)]), now)
  {
    hide SlotsAgree;
    var s' := s.(transfers := s.transfers[t := s.transfers[t].(downloads := downloads)]);
    SlotsUntouched(s, s', now, now);
    Relinked(s, s');
  }

  /** A ticket starts to stream under an active session. */
  lemma StreamStarted(s: State, id: nat, r': Reservation, runtime: Runtime, now: int)
    requires Inv(s, now) && id in s.reservations && TouchMatches(s, s.reservations[id].session) && r'.stage == Consuming
    requires r'.upload == s.reservations[id].upload && r'.transfer == s.reservations[id].transfer
    requires r'.session == s.reservations[id].session
    requires runtime.lease <= runtime.hard
    ensures Inv(s.(reservations := s.reservations[id := r'], runtimes := s.runtimes[id := runtime]), now)
  {
    hide SlotsAgree;
    var s' := s.(reservations := s.reservations[id := r'], runtimes := s.runtimes[id := runtime]);
    assert SlotsExact(s', now) by {
      SlotsUntouched(s, s', now, now);
    }
    assert Linked(s') by {
      forall o | o in s'.reservations ensures ReservationLinked(s', s'.reservations[o]) {
        assert ReservationLinked(s, s.reservations[o]);
      }
    }
    forall o | o in s'.reservations && s'.reservations[o].stage == Consuming
      ensures TouchMatches(s', s'.reservations[o].session)
    {
      if o != id {
        assert TouchMatches(s, s.reservations[o].session);
      }
    }
  }

  function WithSlotTaken(x: Transfer): Transfer {
    x.(status := if x.downloads + 1 >= x.max then Exhausted else x.status, downloads := x.downloads + 1)
  }

  lemma SlotTakenAgrees(s: State, t: nat, id: nat, session: Session, now: int, o: nat)
    requires t in s.transfers && s.transfers[t].status == Available && s.transfers[t].downloads < s.transfers[t].max
    requires id !in s.sessions && session.transfer == t && session.status == Provisional && o in s.transfers
    requires SlotsAgree(s, o, now)
    ensures SlotsAgree(s.(transfers := s.transfers[t := WithSlotTaken(s.transfers[t])],
      sessions := s.sessions[id := session]), o, now)
  {
    TakenPlus(s.sessions, id, session, o);
  }

  /** A new session takes a slot. */
  lemma SlotTaken(s: State, t: nat, id: nat, session: Session, now: int)
    requires Inv(s, now) && t in s.transfers && s.transfers[t].retrieval && s.transfers[t].status == Available
    requires s.transfers[t].downloads < s.transfers[t].max
    requires id !in s.sessions && session.transfer == t && session.status == Provisional
    ensures Inv(s.(transfers := s.transfers[t := WithSlotTaken(s.transfers[t])], sessions := s.sessions[id := session]),
      now)
  {
    hide SlotsAgree, Taken;
    var s' := s.(transfers := s.transfers[t := WithSlotTaken(s.transfers[t])], sessions := s.sessions[id := session]);
    forall o | o in s'.transfers && s'.transfers[o].retrieval ensures SlotsAgree(s', o, now) {
      SlotTakenAgrees(s, t, id, session, now, o);
    }
    Relinked(s, s');
  }

  lemma SlotReturnedAgrees(s: State, id: nat, now: int, o: nat)
    requires id in s.sessions && s.sessions[id].status == Provisional && s.sessions[id].transfer in s.transfers
    requires o in s.transfers && SlotsAgree(s, o, now)
    ensures var t := s.sessions[id].transfer;
      SlotsAgree(s.(transfers := s.transfers[t := HandBack(s.transfers[t], 1, now)],
                    sessions := s.sessions[id := s.sessions[id].(status := Released, expires := now)]), o, now)
  {
    var session := s.sessions[id].(status := Released, expires := now);
    TakenMinus(s.sessions, id, session, o);
    if o == session.transfer {
      assert id in Taken(s.sessions, o);
    }
  }

  /** A provisional session gives its slot back. */
  lemma SlotReturned(s: State, id: nat, now: int)
    requires Inv(s, now) && id in s.sessions && s.sessions[id].status == Provisional
    ensures var t := s.sessions[id].transfer;
      && t in s.transfers
      && Inv(s.(transfers := s.transfers[t := HandBack(s.transfers[t], 1, now)],
                sessions := s.sessions[id := s.sessions[id].(status := Released, expires := now)]), now)
  {
    hide SlotsAgree, Taken;
    var t := s.sessions[id].transfer;
    var s' := s.(transfers := s.transfers[t := HandBack(s.transfers[t], 1, now)],
                 sessions := s.sessions[id := s.sessions[id].(status := Released, expires := now)]);
    forall o | o in s'.transfers && s'.transfers[o].retrieval ensures SlotsAgree(s', o, now) {
      SlotReturnedAgrees(s, id, now, o);
    }
    Relinked(s, s');
  }

  // ---------- tickets ----------

  lemma OpenSessionKeeps(s: State, q: Request, row: Option<nat>, newSession: nat, now: int)
    requires Inv(s, now) && OpenSession(s, q, row, newSession, now).Opened?
    ensures var o := OpenSession(s, q, row, newSession, now);
      && Inv(o.state, now) && o.session in o.state.sessions && o.state.sessions[o.session].transfer == q.transfer
      && q.transfer in o.state.transfers && o.state.transfers[q.transfer].retrieval
  {
    hide Inv;
    var o := OpenSession(s, q, row, newSession, now);
    if o.state != s {
      SlotTaken(s, q.transfer, newSession, o.state.sessions[newSession], now);
    }
  }

  lemma IssueTicketKeeps(s: State, q: Request, session: nat, newReservation: nat, now: int)
    requires Inv(s, now) && session in s.sessions && s.sessions[session].transfer == q.transfer
    requires q.transfer in s.transfers
    ensures Inv(IssueTicket(s, q, session, newReservation, now).state, now)
  {
    hide Linked, SlotsExact, StreamsAreActive;
    var s' := IssueTicket(s, q, session, newReservation, now).state;
    ReservationsMoved(s, s', now);
  }

  lemma CreateRetrievalKeeps(s: State, q: Request, row: Option<nat>, newSession: nat, newReservation: nat, now: int)
    requires Inv(s, now)
    ensures Inv(CreateRetrieval(s, q, row, newSession, newReservation, now).state, now)
  {
    hide Inv, OpenSession, IssueTicket;
    var o := OpenSession(s, q, row, newSession, now);
    if q.lifetime > 0 && o.Opened? {
      OpenSessionKeeps(s, q, row, newSession, now);
      IssueTicketKeeps(o.state, q, o.session, newReservation, now);
    }
  }

  lemma CreateLegacyKeeps(s: State, q: Request, newReservation: nat, now: int)
    requires Inv(s, now)
    ensures Inv(CreateLegacy(s, q, newReservation, now).state, now)
  {
    hide Linked, SlotsExact, StreamsAreActive;
    var s' := CreateLegacy(s, q, newReservation, now).state;
    ReservationsMoved(s, s', now);
  }

  // ---------- streaming ----------

  lemma BeginKeeps(s: State, id: nat, upload: Option<nat>, now: int)
    requires Inv(s, now)
    ensures Inv(Begin(s, id, upload, now).state, now)
  {
    hide SlotsExact, StreamsAreActive;
    var reply := Begin(s, id, upload, now);
    if reply.outcome == Done {
      var r := s.reservations[id];
      assert ReservationLinked(s, r);
      var s' := reply.state;
      if r.session.Some? {
        SessionMoved(s, r.session.value, s'.sessions[r.session.value], now);
        StreamStarted(s.(sessions := s'.sessions), id, s'.reservations[id], s'.runtimes[id], now);
      } else {
        LegacyCounterMoved(s, r.transfer, s'.transfers[r.transfer].downloads, now);
        StreamStarted(s.(transfers := s'.transfers), id, s'.reservations[id], s'.runtimes[id], now);
      }
    } else {
      ReservationsMoved(s, reply.state, now);
    }
  }

  lemma CloseCompletedKeeps(s: State, session: Option<nat>, transfer: nat, now: int)
    requires Inv(s, now)
    ensures Inv(CloseCompleted(s, session, transfer, now), now)
  {
    hide Inv, ReadyFiles, CompletedFiles;
    var s' := CloseCompleted(s, session, transfer, now);
    if s' != s {
      SessionMoved(s, session.value, s'.sessions[session.value], now);
    }
  }

  lemma FinishKeeps(s: State, id: nat, actual: int, now: int)
    requires Inv(s, now) && id in s.reservations
    ensures Inv(Finish(s, id, actual, now).state, now)
  {
    hide SlotsExact, StreamsAreActive, CloseCompleted;
    var r := s.reservations[id];
    assert ReservationLinked(s, r);
    var settled := s.(reservations := s.reservations[id := r.(stage := Settled, actual := actual)]);
    ReservationsMoved(s, settled, now);
    CloseCompletedKeeps(settled, r.session, r.transfer, now);
    if r.session.None? {
      LegacyCounterMoved(settled, r.transfer, Max(s.transfers[r.transfer].downloads - 1, 0), now);
    }
  }

  lemma SettleKeeps(s: State, id: nat, reported: int, forceFinal: bool, now: int)
    requires Inv(s, now)
    ensures Inv(Settle(s, id, reported, forceFinal, now).state, now)
  {
    hide Inv, Finish, WithRuntime, RecordProgress, Reading;
    if id in s.reservations && s.reservations[id].upload in s.uploads {
      var r := s.reservations[id];
      var reading := Reading(s.uploads[r.upload], reported, forceFinal);
      if r.stage == Consuming && reading.Progress? {
        WithRuntimeKeeps(s, id, now);
        var running := WithRuntime(s, id, now);
        RecordProgressKeeps(running, id, reading.bytes, now);
        FinishKeeps(running, id, Max(reading.bytes, r.actual), now);
      } else if !reading.Malformed? {
        FinishKeeps(s, id, reading.bytes, now);
      }
    }
  }

  lemma WithRuntimeKeeps(s: State, id: nat, now: int)
    requires Inv(s, now) && id in s.reservations && s.reservations[id].stage == Consuming
    ensures var running := WithRuntime(s, id, now);
      Inv(running, now) && id in running.reservations && id in running.runtimes
        && running.reservations[id].stage == Consuming
  {
    hide Linked, SlotsExact, StreamsAreActive;
    ReservationsMoved(s, WithRuntime(s, id, now), now);
  }

  lemma RecordProgressKeeps(s: State, id: nat, actual: int, now: int)
    requires Inv(s, now) && id in s.reservations && id in s.runtimes && s.reservations[id].stage == Consuming
    ensures Inv(RecordProgress(s, id, actual, now).state, now)
  {
    hide Linked, SlotsExact, StreamsAreActive;
    ReservationsMoved(s, RecordProgress(s, id, actual, now).state, now);
  }

  // ---------- handing slots back ----------

  lemma AbortKeeps(s: State, id: nat, releaseSession: bool, now: int)
    requires Inv(s, now)
    ensures Inv(Abort(s, id, releaseSession, now).state, now)
  {
    hide SlotsExact, StreamsAreActive, Streaming, HandBack;
    if id in s.reservations {
      var r := s.reservations[id];
      assert ReservationLinked(s, r);
      var dropped := if r.stage == Held then s.(reservations := s.reservations[id := r.(stage := Dropped)]) else s;
      ReservationsMoved(s, dropped, now);
      if r.session.Some? && dropped.sessions[r.session.value].status == Provisional {
        SlotReturned(dropped, r.session.value, now);
      }
    }
  }

  lemma SweepTicketsKeeps(s: State, now: int)
    requires Inv(s, now)
    ensures Inv(SweepTickets(s, now), now)
  {
    hide Linked, SlotsExact, StreamsAreActive;
    ReservationsMoved(s, SweepTickets(s, now), now);
  }

  lemma BackfillKeeps(s: State, now: int)
    requires Inv(s, now)
    ensures Inv(BackfillRuntimes(s, now), now)
  {
    hide Linked, SlotsExact, StreamsAreActive;
    ReservationsMoved(s, BackfillRuntimes(s, now), now);
  }

  lemma SyncDeadlinesKeeps(s: State, now: int)
    requires Inv(s, now)
    ensures Inv(SyncDeadlines(s), now)
  {
    hide Linked, SlotsExact, StreamsAreActive;
    ReservationsMoved(s, SyncDeadlines(s), now);
  }

  lemma SweepTaken(s: State, t: nat, now: int)
    requires Linked(s)
    ensures Taken(SweepSessions(s, now).sessions, t) == Taken(s.sessions, t) - LapsedOf(s, t, now)
    ensures |Taken(SweepSessions(s, now).sessions, t)| == |Taken(s.sessions, t)| - |LapsedOf(s, t, now)|
  {
    hide Streaming, HandBack;
    assert LapsedOf(s, t, now) <= Taken(s.sessions, t);
  }

  lemma SweepSlots(s: State, now: int)
    requires Linked(s) && SlotsExact(s, now)
    ensures SlotsExact(SweepSessions(s, now), now)
  {
    var s' := SweepSessions(s, now);
    forall t | t in s'.transfers && s'.transfers[t].retrieval ensures SlotsAgree(s', t, now) {
      assert SlotsAgree(s, t, now);
      SweepTaken(s, t, now);
      hide SweepSessions, LapsedOf;
      assert s'.transfers[t] == HandBack(s.transfers[t], |LapsedOf(s, t, now)|, now);
    }
  }

  /** A swept session keeps its transfer, and stays active while something streams. */
  lemma SweptSession(s: State, id: nat, now: int)
    requires id in s.sessions
    ensures var a, a' := s.sessions[id], SweepSessions(s, now).sessions[id];
      a'.transfer == a.transfer && (a.status == Active && Streaming(s, id) ==> a'.status == Active)
  {
    hide Streaming, HandBack, LapsedOf;
  }

  lemma SweptReservation(s: State, r: nat, now: int)
    requires r in s.reservations
    ensures Tame(s.reservations[r], SweepSessions(s, now).reservations[r])
  {
    hide Streaming, HandBack, LapsedOf, Lapsed;
  }

  lemma SweptTransfer(s: State, t: nat, now: int)
    requires t in s.transfers
    ensures SweepSessions(s, now).transfers[t].retrieval == s.transfers[t].retrieval
  {
  }

  lemma SweptKeys(s: State, now: int)
    ensures var s' := SweepSessions(s, now);
      && s'.transfers.Keys == s.transfers.Keys && s'.sessions.Keys == s.sessions.Keys
      && s'.reservations.Keys == s.reservations.Keys
  {
  }

  lemma SweptReservationLinked(s: State, r: nat, now: int)
    requires Linked(s) && StreamsAreActive(s) && r in s.reservations
    ensures var s' := SweepSessions(s, now);
      && r in s'.reservations && ReservationLinked(s', s'.reservations[r])
      && (s'.reservations[r].stage == Consuming ==> TouchMatches(s', s'.reservations[r].session))
  {
    hide SweepSessions;
    SweptKeys(s, now);
    SweptReservation(s, r, now);
    assert ReservationLinked(s, s.reservations[r]);
    SweptTransfer(s, s.reservations[r].transfer, now);
    if s.reservations[r].session.Some? {
      SweptSession(s, s.reservations[r].session.value, now);
      if s.reservations[r].stage == Consuming {
        assert TouchMatches(s, s.reservations[r].session);
      }
    }
  }

  lemma SweepLinked(s: State, now: int)
    requires Linked(s) && StreamsAreActive(s)
    ensures Linked(SweepSessions(s, now)) && StreamsAreActive(SweepSessions(s, now))
  {
    var s' := SweepSessions(s, now);
    hide SweepSessions, ReservationLinked, TouchMatches;
    SweptKeys(s, now);
    forall id | id in s'.sessions
      ensures s'.sessions[id].transfer in s'.transfers && s'.transfers[s'.sessions[id].transfer].retrieval
    {
      SweptSession(s, id, now);
      SweptTransfer(s, s.sessions[id].transfer, now);
    }
    forall r | r in s'.reservations
      ensures ReservationLinked(s', s'.reservations[r])
      ensures s'.reservations[r].stage == Consuming ==> TouchMatches(s', s'.reservations[r].session)
    {
      SweptReservationLinked(s, r, now);
    }
  }

  lemma SweepSessionsKeeps(s: State, now: int)
    requires Inv(s, now)
    ensures Inv(SweepSessions(s, now), now)
  {
    hide SlotsExact, Linked, StreamsAreActive;
    SweepSlots(s, now);
    SweepLinked(s, now);
    forall r | r in s.reservations ensures Tame(s.reservations[r], SweepSessions(s, now).reservations[r]) {
      SweptReservation(s, r, now);
    }
  }

  // ---------- the rest of a transfer's life ----------

  lemma TransfersKeep(s: State, s': State, now: int)
    requires Inv(s, now) && s'.sessions == s.sessions && s'.reservations == s.reservations && s'.runtimes == s.runtimes
    requires forall t :: t in s.transfers ==> t in s'.transfers && s'.transfers[t].retrieval == s.transfers[t].retrieval
    requires forall t :: t in s'.transfers && s'.transfers[t].retrieval ==> SlotsAgree(s', t, now)
    ensures Inv(s', now)
  {
    hide SlotsAgree;
    Relinked(s, s');
  }

  lemma CreateTransferKeeps(s: State, id: nat, expires: int, retrieval: bool, max: int, now: int)
    requires Inv(s, now)
    ensures Inv(CreateTransfer(s, id, expires, retrieval, max), now)
  {
    var s' := CreateTransfer(s, id, expires, retrieval, max);
    if s' != s {
      assert Taken(s.sessions, id) == {};
      forall t | t in s'.transfers && s'.transfers[t].retrieval ensures SlotsAgree(s', t, now) {
        if t != id {
          assert SlotsAgree(s, t, now);
        }
      }
      hide Inv, SlotsAgree;
      TransfersKeep(s, s', now);
    }
  }

  lemma StatusEndsKeep(s: State, s': State, now: int)
    requires Inv(s, now) && s'.sessions == s.sessions && s'.reservations == s.reservations && s'.runtimes == s.runtimes
    requires s'.transfers.Keys == s.transfers.Keys
    requires forall t :: t in s.transfers ==>
      s'.transfers[t] == s.transfers[t].(status := s'.transfers[t].status)
      && (s'.transfers[t].status == s.transfers[t].status || s'.transfers[t].status == Revoked
           || s'.transfers[t].status == Expired)
    ensures Inv(s', now)
  {
    forall t | t in s'.transfers && s'.transfers[t].retrieval ensures SlotsAgree(s', t, now) {
      assert SlotsAgree(s, t, now);
    }
    hide Inv, SlotsAgree;
    TransfersKeep(s, s', now);
  }

  /** Every transaction keeps the invariant. */
  lemma ApplyKeeps(s: State, step: Step, clock: int, now: int)
    requires Inv(s, clock) && clock <= now
    ensures Inv(Apply(s, step, now), now)
  {
    hide Inv, CreateRetrieval, CreateLegacy, Begin, Settle, Abort, SweepSessions, SweepTickets, BackfillRuntimes,
      SyncDeadlines, CreateTransfer;
    Later(s, clock, now);
    match step
    case NewTransfer(id, expires, retrieval, max) => CreateTransferKeeps(s, id, expires, retrieval, max, now);
    case NewUpload(id, transfer, length, node) => StatusEndsKeep(s, PublishUpload(s, id, transfer, length, node), now);
    case Readiness(id, ready) => StatusEndsKeep(s, SetReady(s, id, ready), now);
    case RetrievalTicket(q, row, newSession, newReservation) =>
      CreateRetrievalKeeps(s, q, row, newSession, newReservation, now);
    case LegacyTicket(q, newReservation) => CreateLegacyKeeps(s, q, newReservation, now);
    case Start(id, upload) => BeginKeeps(s, id, upload, now);
    case Tell(id, reported, forceFinal) => SettleKeeps(s, id, reported, forceFinal, now);
    case GiveUp(id, releaseSession) => AbortKeeps(s, id, releaseSession, now);
    case SessionSweep => SweepSessionsKeeps(s, now);
    case TicketSweep => SweepTicketsKeeps(s, now);
    case RuntimeSweep => BackfillKeeps(s, now);
    case DeadlineSweep => SyncDeadlinesKeeps(s, now);
    case Revocation(id) => StatusEndsKeep(s, RevokeTransfer(s, id), now);
    case ExpirySweep => StatusEndsKeep(s, ExpireTransfers(s, now), now);
  }

  // ---------- reports ----------

  /** The reasons the rows themselves give to refuse a report. */
  predicate ReportRefused(s: State, id: nat, reported: int, forceFinal: bool) {
    || id !in s.reservations || s.reservations[id].upload !in s.uploads
    || var r := s.reservations[id];
       var reading := Reading(s.uploads[r.upload], reported, forceFinal);
       || reading.Malformed?
       || (r.stage == Settled && r.actual != reading.bytes)
       || (r.stage == Consuming && reading.Progress? && reading.bytes < r.actual)
  }

  /**
   A progress or final report is refused only for its own content: the session check
   inside settlement never rejects one.
   */
  lemma ReportsRefusedExactly(s: State, id: nat, reported: int, forceFinal: bool, now: int)
    requires Inv(s, now)
    ensures Settle(s, id, reported, forceFinal, now).outcome != Done <==> ReportRefused(s, id, reported, forceFinal)
    ensures Settle(s, id, reported, forceFinal, now).outcome != Failed(SessionNotActive)
  {
    hide Linked, SlotsExact, LeasesBounded, CloseCompleted, Reading;
    if id in s.reservations && s.reservations[id].stage == Consuming {
      assert TouchMatches(s, s.reservations[id].session);
    }
  }
}
