/** What each retrieval transaction does: when it succeeds, and how it leaves tickets, sessions and slots. */
module RetrievalLaws {
  import opened Basics
  import opened Sums
  import opened DownloadReports
  import opened Retrieval
  import opened RetrievalSafety
  import RetrievalRuns

  // ---------- closing a session ----------

  /** The session has settled a reservation of `u` with all of its bytes. */
  predicate Fetched(s: State, session: nat, u: nat) {
    u in s.uploads && exists r :: r in s.reservations && Completes(s.reservations[r], session, u, s.uploads[u].length)
  }

  predicate Completes(r: Reservation, session: nat, u: nat, length: int) {
    r.session == Some(session) && r.stage == Settled && r.upload == u && r.actual >= length
  }

  predicate OnOffer(s: State, transfer: nat, u: nat) {
    u in s.uploads && s.uploads[u].transfer == transfer && s.uploads[u].ready
  }

  /** Files on offer that the session has not fetched. */
  function Missing(s: State, session: nat, transfer: nat): set<nat> {
    set u | u in s.uploads && OnOffer(s, transfer, u) && !Fetched(s, session, u)
  }

  /** Files the session fetched that are no longer on offer. */
  function Withdrawn(s: State, session: nat, transfer: nat): set<nat> {
    set u | u in s.uploads && Fetched(s, session, u) && !OnOffer(s, transfer, u)
  }

  lemma CompletedAreFetched(s: State, session: nat)
    ensures CompletedFiles(s, session) == set u | u in s.uploads && Fetched(s, session, u)
  {
    forall u | u in s.uploads && Fetched(s, session, u) ensures u in CompletedFiles(s, session) {
      var r :| r in s.reservations && Completes(s.reservations[r], session, u, s.uploads[u].length);
      assert s.reservations[r].upload in CompletedFiles(s, session);
    }
  }

  lemma MoreMeansFewerMissing(a: set<nat>, b: set<nat>)
    ensures |a| < |b| <==> |a - b| < |b - a|
  {
    assert a == (a - b) + (a * b) && b == (b - a) + (a * b);
  }

  /** Something is on offer, nothing streams, and no more files are missing than were withdrawn. */
  ghost predicate ToClose(s: State, session: nat, transfer: nat) {
    && (exists u :: OnOffer(s, transfer, u)) && !Streaming(s, session)
    && |Missing(s, session, transfer)| <= |Withdrawn(s, session, transfer)|
  }

  /**
   A session is closed exactly when something is on offer, nothing streams, and the files
   still missing are no more than the fetched files withdrawn since.
   */
  lemma ClosesExactly(s: State, session: nat, transfer: nat, now: int)
    requires session in s.sessions && s.sessions[session].status == Active
    ensures var s' := CloseCompleted(s, Some(session), transfer, now);
      if ToClose(s, session, transfer)
      then s' == s.(sessions := s.sessions[session := s.sessions[session].(status := Closed, expires := now)])
      else s' == s
  {
    CompletedAreFetched(s, session);
    var done, ready := CompletedFiles(s, session), ReadyFiles(s, transfer);
    hide CompletedFiles, Fetched;
    assert forall u :: u in ready <==> OnOffer(s, transfer, u);
    assert Missing(s, session, transfer) == ready - done;
    assert Withdrawn(s, session, transfer) == done - ready;
    MoreMeansFewerMissing(done, ready);
  }

  /**
   As long as no fetched file was withdrawn: a session whose transfer still offers a file
   it has not fetched is left as it is, and one that has fetched all of them is closed
   once nothing streams.
   */
  lemma ClosesWhenAllFetched(s: State, session: nat, transfer: nat, now: int)
    requires session in s.sessions && s.sessions[session].status == Active
    requires forall u :: Fetched(s, session, u) ==> OnOffer(s, transfer, u)
    ensures var s' := CloseCompleted(s, Some(session), transfer, now);
      && ((exists u :: OnOffer(s, transfer, u) && !Fetched(s, session, u)) ==> s' == s)
      && ((exists u :: OnOffer(s, transfer, u)) && (forall u :: OnOffer(s, transfer, u) ==> Fetched(s, session, u))
          && !Streaming(s, session) ==>
            s' == s.(sessions := s.sessions[session := s.sessions[session].(status := Closed, expires := now)]))
  {
    ClosesExactly(s, session, transfer, now);
    hide CloseCompleted, Fetched, OnOffer;
    assert Withdrawn(s, session, transfer) == {};
    if u :| OnOffer(s, transfer, u) && !Fetched(s, session, u) {
      OnOfferExists(s, transfer, u);
      assert u in Missing(s, session, transfer);
    } else {
      assert Missing(s, session, transfer) == {};
    }
  }

  lemma OnOfferExists(s: State, transfer: nat, u: nat)
    requires OnOffer(s, transfer, u)
    ensures u in s.uploads
  {
  }

  /** Three files of one transfer: the first was fetched and withdrawn, the second streams, the third waits. */
  function OneWithdrawn(): State {
    State(
      map[1 := Transfer(Available, 1000, true, 5, 1)],
      map[1 := Session(1, 0, Active, 0, 1800, 1800)],
      map[1 := Reservation(1, 1, Some(1), None, Settled, 10, 300),
          2 := Reservation(2, 1, Some(1), None, Consuming, 0, 300)],
      map[],
      map[1 := Upload(1, false, 10, false), 2 := Upload(1, true, 10, false), 3 := Upload(1, true, 10, false)])
  }

  lemma OneStandsForAnother(s: State)
    requires s.sessions == OneWithdrawn().sessions && s.uploads == OneWithdrawn().uploads
    requires s.reservations == OneWithdrawn().reservations[2 := Reservation(2, 1, Some(1), None, Settled, 10, 300)]
    ensures CloseCompleted(s, Some(1), 1, 100).sessions[1].status == Closed
    ensures !Fetched(s, 1, 3)
  {
    ClosesExactly(s, 1, 1, 100);
    assert Completes(s.reservations[1], 1, 1, 10) && Completes(s.reservations[2], 1, 2, 10);
    assert Missing(s, 1, 1) == {3};
    assert 1 in Withdrawn(s, 1, 1);
    SubsetSize({1}, Withdrawn(s, 1, 1));
    assert OnOffer(s, 1, 3);
  }

  /** A file withdrawn after it was fetched counts for one still missing: the session is closed too early. */
  lemma ClosesEarly()
    ensures var s' := Settle(OneWithdrawn(), 2, 10, true, 100).state;
      OnOffer(s', 1, 3) && !Fetched(s', 1, 3) && s'.sessions[1].status == Closed
  {
    var s := OneWithdrawn();
    var settled := s.(reservations := s.reservations[2 := Reservation(2, 1, Some(1), None, Settled, 10, 300)]);
    OneStandsForAnother(settled);
    hide CloseCompleted, Fetched;
    var s' := Settle(s, 2, 10, true, 100).state;
    assert s' == CloseCompleted(settled, Some(1), 1, 100);
    CloseKeepsFiles(settled, Some(1), 1, 100);
    SameFetched(settled, s', 1, 3);
  }

  lemma CloseKeepsFiles(s: State, session: Option<nat>, transfer: nat, now: int)
    ensures var s' := CloseCompleted(s, session, transfer, now);
      s' == s.(sessions := s'.sessions)
  {
    hide Streaming, CompletedFiles, ReadyFiles;
  }

  lemma SameFetched(s: State, s': State, session: nat, u: nat)
    requires s'.reservations == s.reservations && s'.uploads == s.uploads
    ensures Fetched(s', session, u) == Fetched(s, session, u)
  {
  }

  /** A final report that brought bytes closes its session exactly then, and settles its reservation with them. */
  lemma SettlementCloses(s: State, id: nat, reported: int, forceFinal: bool, now: int)
    requires Inv(s, now) && id in s.reservations && s.reservations[id].upload in s.uploads
    requires s.reservations[id].stage == Consuming && s.reservations[id].session.Some?
    requires Reading(s.uploads[s.reservations[id].upload], reported, forceFinal).Final?
    requires Reading(s.uploads[s.reservations[id].upload], reported, forceFinal).bytes > 0
    ensures var s', session := Settle(s, id, reported, forceFinal, now).state, s.reservations[id].session.value;
      var transfer := s.reservations[id].transfer;
      && Settle(s, id, reported, forceFinal, now).outcome == Done && session in s.sessions
      && s'.reservations == s.reservations[id := s.reservations[id].(stage := Settled,
           actual := Reading(s.uploads[s.reservations[id].upload], reported, forceFinal).bytes)]
      && s'.sessions == (if ToClose(s', session, transfer)
           then s.sessions[session := s.sessions[session].(status := Closed, expires := now)] else s.sessions)
      && s'.transfers == s.transfers && s'.runtimes == s.runtimes
  {
    hide Linked, SlotsExact, LeasesBounded, CloseCompleted, Reading, ToClose;
    var r := s.reservations[id];
    var reading := Reading(s.uploads[r.upload], reported, forceFinal);
    assert TouchMatches(s, r.session);
    var settled := s.(reservations := s.reservations[id := r.(stage := Settled, actual := reading.bytes)]);
    var s' := Settle(s, id, reported, forceFinal, now).state;
    assert s' == CloseCompleted(settled, r.session, r.transfer, now);
    ClosesExactly(settled, r.session.value, r.transfer, now);
    SameFiles(settled, s', r.session.value, r.transfer);
  }

  /** Fetching and offering do not depend on the session rows. */
  lemma SameFiles(s: State, s': State, session: nat, transfer: nat)
    requires s'.reservations == s.reservations && s'.uploads == s.uploads
    ensures Missing(s', session, transfer) == Missing(s, session, transfer)
    ensures Withdrawn(s', session, transfer) == Withdrawn(s, session, transfer)
    ensures ToClose(s', session, transfer) == ToClose(s, session, transfer)
  {
    forall u ensures Fetched(s', session, u) == Fetched(s, session, u) {
      SameFetched(s, s', session, u);
    }
    forall u ensures OnOffer(s', transfer, u) == OnOffer(s, transfer, u) {}
  }

  // ---------- streams ----------

  /** A ticket that may start now: unused, in time, and its session or transfer still serves. */
  predicate MayStart(s: State, r: Reservation, upload: Option<nat>, now: int) {
    && r.stage == Held && r.expires > now && (upload == None || upload == Some(r.upload))
    && r.transfer in s.transfers && s.transfers[r.transfer].expires > now
    && (r.session == None ==>
          && s.transfers[r.transfer].status == Available
          && s.transfers[r.transfer].downloads < s.transfers[r.transfer].max)
    && (r.session.Some? ==>
          && (s.transfers[r.transfer].status == Available || s.transfers[r.transfer].status == Exhausted)
          && r.session.value in s.sessions && s.sessions[r.session.value].transfer == r.transfer
          && (s.sessions[r.session.value].status == Provisional || s.sessions[r.session.value].status == Active)
          && s.sessions[r.session.value].expires > now && s.sessions[r.session.value].hard > now)
  }

  /**
   A stream starts exactly when its ticket may; it then has a lease of two minutes and two
   days at most, and its session is active to its end.
   */
  lemma BeginSucceedsExactly(s: State, id: nat, upload: Option<nat>, now: int)
    ensures Begin(s, id, upload, now).outcome == Done <==>
      id in s.reservations && MayStart(s, s.reservations[id], upload, now)
    ensures Begin(s, id, upload, now).outcome == Done ==>
      var s', r := Begin(s, id, upload, now).state, s.reservations[id];
      && s'.reservations == s.reservations[id := r.(stage := Consuming, expires := now + 172800)]
      && s'.runtimes == s.runtimes[id := Runtime(now + 120, now + 172800)] && s'.uploads == s.uploads
      && (r.session.Some? ==>
            var a := s.sessions[r.session.value];
            && s'.transfers == s.transfers
            && s'.sessions == s.sessions[r.session.value := a.(status := Active, expires := a.hard)])
      && (r.session == None ==>
            var t := s.transfers[r.transfer];
            s'.sessions == s.sessions && s'.transfers == s.transfers[r.transfer := t.(downloads := t.downloads + 1)])
  {
  }

  /** A refused start spends a ticket that was in time, and nothing else. */
  lemma RefusedStartDropsTicket(s: State, id: nat, upload: Option<nat>, now: int)
    requires Begin(s, id, upload, now).outcome != Done
    ensures var s' := Begin(s, id, upload, now).state;
      s' == s || (id in s.reservations && s.reservations[id].stage == Held && s.reservations[id].expires > now
        && s' == s.(reservations := s.reservations[id := s.reservations[id].(stage := Dropped)]))
  {
  }

  /** A count for a whole or forced report is final and within the length; a node's report is decoded first. */
  lemma ReadingExactly(u: Upload, reported: int, forceFinal: bool)
    ensures forceFinal || !u.node ==>
      Reading(u, reported, forceFinal) == if 0 <= reported <= u.length then Final(reported) else Report.Malformed
    ensures !forceFinal && u.node ==> Reading(u, reported, forceFinal) == Decode(u.length, reported)
  {
  }

  /** A stream of an older release gets its deadline with its first progress report. */
  lemma FirstProgressSetsDeadline(s: State, id: nat, reported: int, now: int)
    requires Inv(s, now) && id in s.reservations && s.reservations[id].upload in s.uploads && id !in s.runtimes
    requires s.reservations[id].stage == Consuming
    requires Reading(s.uploads[s.reservations[id].upload], reported, false).Progress?
    requires Reading(s.uploads[s.reservations[id].upload], reported, false).bytes >= s.reservations[id].actual
    ensures var s', r := Settle(s, id, reported, false, now).state, s.reservations[id];
      && Settle(s, id, reported, false, now).outcome == Done
      && s'.runtimes == s.runtimes[id := Runtime(now + 120, now + 172800)]
      && s'.reservations == s.reservations[id := r.(expires := now + 172800,
           actual := Reading(s.uploads[r.upload], reported, false).bytes)]
  {
    hide Linked, SlotsExact, LeasesBounded, Reading;
    assert TouchMatches(s, s.reservations[id].session);
  }

  /** Progress that comes at the deadline or later is the last word: the reservation is settled with it. */
  lemma LateProgressSettles(s: State, id: nat, reported: int, now: int)
    requires Inv(s, now) && id in s.reservations && s.reservations[id].upload in s.uploads && id in s.runtimes
    requires s.reservations[id].stage == Consuming && now >= s.runtimes[id].hard
    requires Reading(s.uploads[s.reservations[id].upload], reported, false).Progress?
    requires Reading(s.uploads[s.reservations[id].upload], reported, false).bytes >= s.reservations[id].actual
    ensures var s', r := Settle(s, id, reported, false, now).state, s.reservations[id];
      && Settle(s, id, reported, false, now).outcome == Done && id in s'.reservations
      && s'.reservations[id].stage == Settled
      && s'.reservations[id].actual == Reading(s.uploads[r.upload], reported, false).bytes
  {
    hide Linked, SlotsExact, LeasesBounded, Reading, ReadyFiles, CompletedFiles, Streaming;
    assert TouchMatches(s, s.reservations[id].session);
  }

  /** Progress before the deadline records the bytes and renews the lease up to the deadline. */
  lemma ProgressRecorded(s: State, id: nat, reported: int, now: int)
    requires Inv(s, now) && id in s.reservations && s.reservations[id].upload in s.uploads && id in s.runtimes
    requires s.reservations[id].stage == Consuming && now < s.runtimes[id].hard
    requires Reading(s.uploads[s.reservations[id].upload], reported, false).Progress?
    requires Reading(s.uploads[s.reservations[id].upload], reported, false).bytes >= s.reservations[id].actual
    ensures var s', r := Settle(s, id, reported, false, now).state, s.reservations[id];
      && Settle(s, id, reported, false, now).outcome == Done
      && s'.reservations == s.reservations[id := r.(actual := Reading(s.uploads[r.upload], reported, false).bytes)]
      && s'.runtimes == s.runtimes[id := Runtime(Min(now + 120, s.runtimes[id].hard), s.runtimes[id].hard)]
      && s'.sessions == s.sessions && s'.transfers == s.transfers && s'.uploads == s.uploads
  {
    hide Linked, SlotsExact, LeasesBounded, Reading;
    assert TouchMatches(s, s.reservations[id].session);
  }

  /** A stream that brought nothing gives a transfer without sessions its count back; a session keeps its slot. */
  lemma EmptyStreamReturnsCount(s: State, id: nat, reported: int, forceFinal: bool, now: int)
    requires id in s.reservations && s.reservations[id].upload in s.uploads && s.reservations[id].stage == Consuming
    requires Reading(s.uploads[s.reservations[id].upload], reported, forceFinal) == Final(0)
    requires s.reservations[id].transfer in s.transfers
    ensures var s', r := Settle(s, id, reported, forceFinal, now).state, s.reservations[id];
      && Settle(s, id, reported, forceFinal, now).outcome == Done
      && s'.reservations == s.reservations[id := r.(stage := Settled, actual := 0)] && s'.sessions == s.sessions
      && (r.session.Some? ==> s'.transfers == s.transfers)
      && (r.session == None ==>
            var t := s.transfers[r.transfer];
            s'.transfers == s.transfers[r.transfer := t.(downloads := Max(t.downloads - 1, 0))])
  {
    hide Reading;
  }

  // ---------- tickets ----------

  /** A usable ticket: held for this file by this session, in time, with the lifetime asked for or the session's end. */
  predicate TicketFor(s: State, r: nat, q: Request, session: nat, now: int) {
    && r in s.reservations && session in s.sessions
    && s.reservations[r].session == Some(session) && s.reservations[r].upload == q.upload
    && s.reservations[r].stage == Held
    && s.reservations[r].expires == Min(now + q.lifetime, s.sessions[session].expires) > now
    && s.sessions[session].transfer == q.transfer && s.sessions[session].hard > now
    && (s.sessions[session].status == Provisional || s.sessions[session].status == Active)
  }

  /** A new session takes one slot of an active transfer for five minutes, thirty at most. */
  predicate SlotTakenFor(s: State, s': State, q: Request, session: nat, now: int) {
    && q.transfer in s.transfers && q.transfer in s'.transfers && session !in s.sessions
    && s.transfers[q.transfer].status == Available && s.transfers[q.transfer].downloads < s.transfers[q.transfer].max
    && s'.transfers[q.transfer].downloads == s.transfers[q.transfer].downloads + 1
    && s'.transfers - {q.transfer} == s.transfers - {q.transfer}
    && session in s'.sessions && s'.sessions - {session} == s.sessions
    && s'.sessions[session].status == Provisional && s'.sessions[session].created == now
    && s'.sessions[session].expires == now + 300 && s'.sessions[session].hard == now + 1800
    && s'.sessions[session].recipient == (if q.recipient.Some? then q.recipient.value else 0)
    && s'.sessions[session].transfer == q.transfer
    && s'.transfers[q.transfer].status ==
         (if s.transfers[q.transfer].downloads + 1 == s.transfers[q.transfer].max then Exhausted else Available)
  }

  /**
   A granted request leaves a usable ticket for a file that is ready. The session is the
   one named or found, with no slot taken, or a new one that took exactly one.
   */
  lemma TicketIssued(s: State, q: Request, row: Option<nat>, newSession: nat, newReservation: nat, now: int)
    requires Linked(s) && CreateRetrieval(s, q, row, newSession, newReservation, now).outcome == Done
    ensures var s' := CreateRetrieval(s, q, row, newSession, newReservation, now).state;
      var session := if q.session.Some? then q.session.value else if row.Some? then row.value else newSession;
      && (exists r :: TicketFor(s', r, q, session, now)
            && s'.reservations == s.reservations[r := s'.reservations[r]]
            && (r !in s.reservations ==> r == newReservation && s'.reservations[r].actual == 0)
            && (r in s.reservations ==>
                  s'.reservations[r] == s.reservations[r].(expires := s'.reservations[r].expires)))
      && OnOffer(s, q.transfer, q.upload) && s'.uploads == s.uploads && s'.runtimes == s.runtimes
      && (if q.session.Some? || row.Some? then s'.sessions == s.sessions && s'.transfers == s.transfers
          else SlotTakenFor(s, s', q, session, now))
  {
    var s' := CreateRetrieval(s, q, row, newSession, newReservation, now).state;
    var session := if q.session.Some? then q.session.value else if row.Some? then row.value else newSession;
    hide Linked;
    var found := OpenSession(s, q, row, newSession, now).state;
    var live := LiveTickets(found, session, q.upload);
    assert TicketFor(s', if live != {} then Least(live) else newReservation, q, session, now);
  }

  /** A live ticket of the session for the file, streaming or not. */
  predicate LiveFor(s: State, r: nat, session: nat, upload: nat) {
    && r in s.reservations && s.reservations[r].session == Some(session) && s.reservations[r].upload == upload
    && (s.reservations[r].stage == Held || s.reservations[r].stage == Consuming)
  }

  /** The index on live tickets: a session has at most one for a file. */
  ghost predicate OneTicketEach(s: State) {
    forall r, o, session, upload :: LiveFor(s, r, session, upload) && LiveFor(s, o, session, upload) ==> r == o
  }

  /** The session a request names or finds can be used, or a slot is free for a new one. */
  predicate SessionToBeHad(s: State, q: Request, row: Option<nat>, newSession: nat, now: int)
    requires q.transfer in s.transfers
  {
    if q.session.Some? then q.session.value in s.sessions && Usable(s.sessions[q.session.value], q.transfer, now)
    else if row.Some? then row.value in s.sessions && Usable(s.sessions[row.value], q.transfer, now)
    else
      && s.transfers[q.transfer].status == Available && s.transfers[q.transfer].downloads < s.transfers[q.transfer].max
      && newSession !in s.sessions
  }

  /** Whichever session it is has no live ticket for the file yet, or one that is unused and in time. */
  ghost predicate TicketToBeHad(s: State, session: nat, upload: nat, newReservation: nat, now: int) {
    && (forall r :: LiveFor(s, r, session, upload) ==>
          s.reservations[r].stage == Held && s.reservations[r].expires > now)
    && (newReservation !in s.reservations || exists r :: LiveFor(s, r, session, upload))
  }

  /**
   A request is granted exactly when its lifetime is positive, the transfer serves retrievals,
   a session is to be had, the file is on offer, and so is a ticket for it.
   */
  lemma TicketGrantedExactly(
      s: State, q: Request, row: Option<nat>, newSession: nat, newReservation: nat, now: int)
    requires Linked(s) && OneTicketEach(s)
    ensures var session := if q.session.Some? then q.session.value else if row.Some? then row.value else newSession;
      CreateRetrieval(s, q, row, newSession, newReservation, now).outcome == Done <==>
        && q.lifetime > 0 && q.transfer in s.transfers && s.transfers[q.transfer].retrieval
        && s.transfers[q.transfer].expires > now
        && (s.transfers[q.transfer].status == Available || s.transfers[q.transfer].status == Exhausted)
        && SessionToBeHad(s, q, row, newSession, now) && OnOffer(s, q.transfer, q.upload)
        && TicketToBeHad(s, session, q.upload, newReservation, now)
  {
    var session := if q.session.Some? then q.session.value else if row.Some? then row.value else newSession;
    var live := LiveTickets(s, session, q.upload);
    assert forall r :: r in live <==> LiveFor(s, r, session, q.upload);
    if live != {} {
      assert LiveFor(s, Least(live), session, q.upload);
    }
    var reply := OpenSession(s, q, row, newSession, now);
    if reply.Opened? {
      assert LiveTickets(reply.state, session, q.upload) == live;
    }
    hide LiveTickets, Linked, LiveFor;
  }

  /** A recipient's newest session that is still provisional. */
  predicate NewestOf(s: State, id: nat, transfer: nat, recipient: nat, now: int) {
    && ProvisionalOf(s, id, transfer, recipient, now)
    && forall other :: other in s.sessions && ProvisionalOf(s, other, transfer, recipient, now) ==>
         s.sessions[other].created <= s.sessions[id].created
  }

  predicate ProvisionalOf(s: State, id: nat, transfer: nat, recipient: nat, now: int) {
    && id in s.sessions && s.sessions[id].transfer == transfer && s.sessions[id].recipient == recipient
    && s.sessions[id].status == Provisional && s.sessions[id].expires > now && s.sessions[id].hard > now
  }

  /** A recipient who asks again while a session of theirs is provisional gets that one, and takes no second slot. */
  lemma RecipientTakesOneSlot(
      s: State, q: Request, row: Option<nat>, newSession: nat, newReservation: nat, now: int)
    requires q.session == None && QueryReturns(s, q.transfer, q.recipient, now, row)
    ensures q.recipient == None ==> row == None
    ensures q.recipient.Some? && row == None ==> forall id :: !ProvisionalOf(s, id, q.transfer, q.recipient.value, now)
    ensures row.Some? ==> q.recipient.Some? && NewestOf(s, row.value, q.transfer, q.recipient.value, now)
    ensures row.Some? ==> var s' := Apply(s, RetrievalTicket(q, row, newSession, newReservation), now);
      s'.sessions == s.sessions && s'.transfers == s.transfers
  {
    forall id, recipient: nat
      ensures Reusable(s, id, q.transfer, recipient, now) <==> ProvisionalOf(s, id, q.transfer, recipient, now)
    {
    }
    hide Reusable, ProvisionalOf, LiveTickets;
  }

  predicate HeldBy(r: Reservation, q: Request) {
    r.upload == q.upload && r.transfer == q.transfer && r.recipient == q.recipient && r.stage == Held
  }

  /** A recipient's own unused tickets for the file are renewed in time and dropped past it; others stay. */
  function AfterRequest(r: Reservation, q: Request, now: int): Reservation {
    if q.recipient == None || !HeldBy(r, q) then r
    else if r.expires <= now then r.(stage := Dropped)
    else r.(expires := now + q.lifetime)
  }

  /** A granted request without sessions leaves one usable ticket of that recipient, in time, and takes no slot. */
  lemma LegacyTicketIssued(s: State, q: Request, newReservation: nat, now: int)
    requires CreateLegacy(s, q, newReservation, now).outcome == Done
    ensures var s' := CreateLegacy(s, q, newReservation, now).state;
      && s' == s.(reservations := s'.reservations) && q.transfer in s.transfers && !s.transfers[q.transfer].retrieval
      && (exists r ::
            && r in s'.reservations && HeldBy(s'.reservations[r], q)
            && s'.reservations[r].expires == now + q.lifetime > now)
      && (forall r :: r in s.reservations ==>
            r in s'.reservations && s'.reservations[r] == AfterRequest(s.reservations[r], q, now))
      && (forall r :: r in s'.reservations && r !in s.reservations ==>
            r == newReservation && s'.reservations[r].actual == 0 && s'.reservations[r].session == None)
  {
    var s' := CreateLegacy(s, q, newReservation, now).state;
    if r :|
      r in s.reservations && q.recipient.Some? && s.reservations[r].expires > now && HeldBy(s.reservations[r], q) {
      assert s'.reservations[r].expires == now + q.lifetime;
    } else {
      assert s'.reservations[newReservation].expires == now + q.lifetime;
    }
  }

  /** Such a request is granted exactly when its lifetime is positive and a ticket can be renewed or inserted. */
  lemma LegacyGrantedExactly(s: State, q: Request, newReservation: nat, now: int)
    ensures CreateLegacy(s, q, newReservation, now).outcome == Done <==>
      && q.lifetime > 0 && q.transfer in s.transfers && !s.transfers[q.transfer].retrieval
      && (|| newReservation !in s.reservations
          || (q.recipient.Some? &&
              exists r :: r in s.reservations && HeldBy(s.reservations[r], q) && s.reservations[r].expires > now))
  {
  }

  // ---------- handing back ----------

  /** A transfer with slots handed back: a full one that has not expired serves again. */
  function Reopened(t: Transfer, slots: nat, now: int): Transfer {
    t.(downloads := t.downloads - slots,
       status := if slots > 0 && t.status == Exhausted && t.expires > now then Available else t.status)
  }

  /** Giving up a ticket drops it; with its session it also frees exactly one slot, and reopens a full transfer. */
  lemma AbortReturnsSlot(s: State, id: nat, now: int)
    requires Inv(s, now) && id in s.reservations && s.reservations[id].session.Some?
    ensures var s', r := Abort(s, id, true, now).state, s.reservations[id];
      var session, t := r.session.value, r.transfer;
      && session in s.sessions && t in s.transfers
      && (r.stage == Held ==> s'.reservations == s.reservations[id := r.(stage := Dropped)])
      && (r.stage != Held ==> s'.reservations == s.reservations)
      && (s.sessions[session].status != Provisional ==> s'.sessions == s.sessions && s'.transfers == s.transfers)
      && (s.sessions[session].status == Provisional ==>
            && s'.sessions == s.sessions[session := s.sessions[session].(status := Released, expires := now)]
            && s'.transfers == s.transfers[t := Reopened(s.transfers[t], 1, now)])
  {
    hide LeasesBounded;
    var r := s.reservations[id];
    assert ReservationLinked(s, r);
    var session := r.session.value;
    if s.sessions[session].status == Provisional {
      assert session in Taken(s.sessions, r.transfer);
      assert SlotsAgree(s, r.transfer, now);
      NobodyStreams(s, id, session);
    }
  }

  lemma NobodyStreams(s: State, id: nat, session: nat)
    requires StreamsAreActive(s) && id in s.reservations && session in s.sessions
    requires s.sessions[session].status == Provisional
    ensures !Streaming(s, session)
    ensures s.reservations[id].stage == Held ==>
      !Streaming(s.(reservations := s.reservations[id := s.reservations[id].(stage := Dropped)]), session)
  {
  }

  /** After a sweep no provisional session is overdue and none of their tickets is usable. */
  lemma SweepLeavesNothingOverdue(s: State, now: int, id: nat)
    requires Inv(s, now) && id in s.sessions
    ensures var s', a := SweepSessions(s, now), s.sessions[id];
      && id in s'.sessions
      && (a.status == Provisional && a.expires <= now ==> s'.sessions[id] == a.(status := Released, expires := now))
      && (a.status == Provisional && a.expires > now ==> s'.sessions[id] == a)
      && (a.status == Active && a.expires <= now && !Streaming(s, id) ==> s'.sessions[id] == a.(status := Closed))
      && (a.status == Active && (a.expires > now || Streaming(s, id)) ==> s'.sessions[id] == a)
      && (a.status == Closed || a.status == Released ==> s'.sessions[id] == a)
  {
    hide Linked, SlotsExact, LeasesBounded, LapsedOf, HandBack;
    if s.sessions[id].status == Provisional {
      SessionSilent(s, id);
    }
  }

  lemma SessionSilent(s: State, session: nat)
    requires StreamsAreActive(s) && session in s.sessions && s.sessions[session].status == Provisional
    ensures !Streaming(s, session)
  {
  }

  predicate Overdue(s: State, session: nat, now: int) {
    session in s.sessions && s.sessions[session].status == Provisional && s.sessions[session].expires <= now
  }

  /** Swept tickets are the unused ones of overdue sessions. */
  lemma SweepDropsTickets(s: State, now: int, r: nat)
    requires r in s.reservations
    ensures var s', x := SweepSessions(s, now), s.reservations[r];
      && r in s'.reservations
      && s'.reservations[r] == (if x.stage == Held && x.session.Some? && Overdue(s, x.session.value, now)
           then x.(stage := Dropped) else x)
  {
    hide Streaming, LapsedOf, HandBack;
  }

  /** A transfer gets back one slot for each overdue session. */
  lemma SweepReturnsSlots(s: State, now: int, t: nat)
    requires Inv(s, now) && t in s.transfers && s.transfers[t].retrieval
    ensures var s' := SweepSessions(s, now);
      && t in s'.transfers
      && s'.transfers[t] == Reopened(s.transfers[t],
           |set id | id in s.sessions && s.sessions[id].transfer == t && Overdue(s, id, now)|, now)
  {
    var overdue := set id | id in s.sessions && s.sessions[id].transfer == t && Overdue(s, id, now);
    forall id | id in overdue ensures !Streaming(s, id) {
      SessionSilent(s, id);
    }
    hide Streaming, Linked, LeasesBounded;
    assert LapsedOf(s, t, now) == overdue;
    assert SlotsAgree(s, t, now);
    SubsetSize(overdue, Taken(s.sessions, t));
  }

  /** Unused tickets past their time are dropped, and only those. */
  lemma TicketSweepExact(s: State, now: int, r: nat)
    requires r in s.reservations
    ensures var s', x := SweepTickets(s, now), s.reservations[r];
      && s'.reservations.Keys == s.reservations.Keys
      && (x.stage == Held && x.expires <= now ==> s'.reservations[r] == x.(stage := Dropped))
      && (x.stage != Held || x.expires > now ==> s'.reservations[r] == x)
  {
  }

  /** After the two repair sweeps every stream has a deadline, and its row shows it. */
  lemma StreamsHaveDeadlines(s: State, now: int, r: nat)
    requires r in s.reservations && s.reservations[r].stage == Consuming
    ensures var s' := SyncDeadlines(BackfillRuntimes(s, now));
      && r in s'.runtimes && r in s'.reservations && s'.reservations[r].expires == s'.runtimes[r].hard
      && (r in s.runtimes ==> s'.runtimes[r] == s.runtimes[r])
      && (r !in s.runtimes ==> s'.runtimes[r] == Runtime(now + 120, now + 172800))
  {
  }

  /** Revoking and expiring end active transfers only, and nothing is served afterwards. */
  lemma EndedTransfersServeNothing(s: State, id: nat, now: int)
    requires id in s.transfers && s.transfers[id].status == Available
    ensures !Serving(RevokeTransfer(s, id).transfers[id], now)
    ensures s.transfers[id].expires <= now ==> ExpireTransfers(s, now).transfers[id].status == Expired
    ensures s.transfers[id].expires > now ==> ExpireTransfers(s, now).transfers[id] == s.transfers[id]
  {
  }

  /** A transfer starts active with all its slots free, and an upload starts out of reach. */
  lemma NewRowsStartEmpty(
      s: State, id: nat, expires: int, retrieval: bool, max: int, transfer: nat, length: int, node: bool)
    ensures id !in s.transfers && max >= 1 ==>
      CreateTransfer(s, id, expires, retrieval, max).transfers
      == s.transfers[id := Transfer(Available, expires, retrieval, max, 0)]
    ensures id !in s.uploads ==>
      PublishUpload(s, id, transfer, length, node).uploads == s.uploads[id := Upload(transfer, false, length, node)]
  {
  }

  // ---------- one live ticket per file ----------

  /** Only a ticket request adds a reservation, and only when its session has no live one for the file. */
  lemma NewReservationsAreFirst(s: State, step: Step, now: int, r: nat, session: nat, upload: nat)
    requires r !in s.reservations && LiveFor(Apply(s, step, now), r, session, upload)
    ensures step.RetrievalTicket? && r == step.newReservation
    ensures forall o :: !LiveFor(s, o, session, upload)
    ensures forall o :: o in Apply(s, step, now).reservations && o != r ==> o in s.reservations
  {
    hide Settle, Streaming, HandBack, LapsedOf, QueryReturns, BeginAllowed, Least;
    if step.Tell? {
      SettleAddsNothing(s, step.id, step.reported, step.forceFinal, now);
    }
    if step.RetrievalTicket? {
      var q := step.q;
      var reply := OpenSession(s, q, step.row, step.newSession, now);
      assert reply.Opened?;
      assert LiveTickets(reply.state, session, upload) == LiveTickets(s, session, upload);
      forall o | LiveFor(s, o, session, upload) ensures o in LiveTickets(s, session, upload) {}
    }
  }

  lemma SettleAddsNothing(s: State, id: nat, reported: int, forceFinal: bool, now: int)
    ensures Settle(s, id, reported, forceFinal, now).state.reservations.Keys == s.reservations.Keys
  {
    hide Reading, Streaming, ReadyFiles, CompletedFiles;
  }

  lemma ApplyKeepsOneTicket(s: State, step: Step, now: int)
    requires OneTicketEach(s) && LeasesBounded(s)
    ensures OneTicketEach(Apply(s, step, now))
  {
    hide Apply, LeasesBounded;
    var s' := Apply(s, step, now);
    forall r, o, session, upload | LiveFor(s', r, session, upload) && LiveFor(s', o, session, upload) ensures r == o {
      if r !in s.reservations {
        NewReservationsAreFirst(s, step, now, r, session, upload);
        if o != r {
          LiveBefore(s, step, now, o, session, upload);
        }
      } else {
        LiveBefore(s, step, now, r, session, upload);
        if o !in s.reservations {
          NewReservationsAreFirst(s, step, now, o, session, upload);
        } else {
          LiveBefore(s, step, now, o, session, upload);
        }
      }
    }
  }

  /** No step brings a spent ticket back to life. */
  lemma LiveBefore(s: State, step: Step, now: int, r: nat, session: nat, upload: nat)
    requires LeasesBounded(s) && r in s.reservations && LiveFor(Apply(s, step, now), r, session, upload)
    ensures LiveFor(s, r, session, upload)
  {
    hide Apply, LeasesBounded;
    RetrievalRuns.ApplyEvolves(s, step, now, r);
  }

  /** In every run a session has at most one live ticket for a file, as the table's index demands. */
  lemma {:induction false} OneTicketInEveryRun(s: State, steps: seq<RetrievalRuns.Timed>, clock: int)
    requires Inv(s, clock) && RetrievalRuns.ClockAdvances(steps, clock) && OneTicketEach(s)
    ensures OneTicketEach(RetrievalRuns.Run(s, steps))
    decreases steps
  {
    if steps != [] {
      ApplyKeepsOneTicket(s, steps[0].step, steps[0].now);
      hide Apply, OneTicketEach, SlotsExact, Linked, StreamsAreActive, LeasesBounded;
      ApplyKeeps(s, steps[0].step, clock, steps[0].now);
      OneTicketInEveryRun(Apply(s, steps[0].step, steps[0].now), steps[1..], steps[0].now);
    }
  }
}
