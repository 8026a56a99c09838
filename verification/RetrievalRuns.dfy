/** Whole runs of the retrieval store under a non-decreasing clock. */
module RetrievalRuns {
  import opened Basics
  import opened Sums
  import opened DownloadReports
  import opened Retrieval
  import opened RetrievalSafety

  datatype Timed = Timed(step: Step, now: int)

  function Run(s: State, steps: seq<Timed>): State
    decreases steps
  {
    if steps == [] then s else Run(Apply(s, steps[0].step, steps[0].now), steps[1..])
  }

  /** The clock starts at `clock` and never goes back. */
  predicate ClockAdvances(steps: seq<Timed>, clock: int)
    decreases steps
  {
    steps == [] || (clock <= steps[0].now && ClockAdvances(steps[1..], steps[0].now))
  }

  function LastClock(steps: seq<Timed>, clock: int): int {
    if steps == [] then clock else steps[|steps| - 1].now
  }

  lemma {:induction false} RunKeeps(s: State, steps: seq<Timed>, clock: int)
    requires Inv(s, clock) && ClockAdvances(steps, clock)
    ensures Inv(Run(s, steps), LastClock(steps, clock))
    decreases steps
  {
    hide Inv, Apply;
    if steps != [] {
      ApplyKeeps(s, steps[0].step, clock, steps[0].now);
      RunKeeps(Apply(s, steps[0].step, steps[0].now), steps[1..], steps[0].now);
    }
  }

  /** A database with no rows is a sound start. */
  lemma EmptyStateIsSound(clock: int)
    ensures Inv(State(map[], map[], map[], map[], map[]), clock)
  {
  }

  /** Slot accounting in every reachable state. */
  lemma SlotsInEveryRun(s: State, steps: seq<Timed>, clock: int, t: nat)
    requires Inv(s, clock) && ClockAdvances(steps, clock)
    requires t in Run(s, steps).transfers && Run(s, steps).transfers[t].retrieval
    ensures SlotsAgree(Run(s, steps), t, LastClock(steps, clock))
  {
    hide Run, SlotsAgree;
    RunKeeps(s, steps, clock);
  }

  // ---------- how many sessions ever stream ----------

  /** Sessions of the transfer that have started to stream. */
  function StreamedNow(s: State, t: nat): set<nat> {
    set id | id in s.sessions && s.sessions[id].transfer == t
      && (s.sessions[id].status == Active || s.sessions[id].status == Closed)
  }

  /** Sessions that were streaming or done in any state of the run. */
  function EverStreamed(s: State, steps: seq<Timed>, t: nat): set<nat>
    decreases steps
  {
    StreamedNow(s, t) + if steps == [] then {} else EverStreamed(Apply(s, steps[0].step, steps[0].now), steps[1..], t)
  }

  predicate Began(session: Session) {
    session.status == Active || session.status == Closed
  }

  /** A session that has started keeps its transfer and is never released. */
  ghost predicate StreamsStay(s: State, s': State) {
    forall id :: id in s.sessions && Began(s.sessions[id]) ==>
      id in s'.sessions && s'.sessions[id].transfer == s.sessions[id].transfer && Began(s'.sessions[id])
  }

  lemma SettleStreamsStay(s: State, id: nat, reported: int, forceFinal: bool, now: int)
    ensures StreamsStay(s, Settle(s, id, reported, forceFinal, now).state)
  {
    hide Reading, Streaming, ReadyFiles, CompletedFiles;
  }

  lemma ApplyStreamsStay(s: State, step: Step, now: int)
    ensures StreamsStay(s, Apply(s, step, now))
  {
    hide Settle, Streaming, HandBack, LapsedOf, QueryReturns, LiveTickets;
    if step.Tell? {
      SettleStreamsStay(s, step.id, step.reported, step.forceFinal, now);
    }
  }

  lemma {:induction false} StreamedAccumulates(s: State, steps: seq<Timed>, t: nat)
    ensures EverStreamed(s, steps, t) <= StreamedNow(Run(s, steps), t)
    decreases steps
  {
    hide Apply;
    if steps != [] {
      var s' := Apply(s, steps[0].step, steps[0].now);
      ApplyStreamsStay(s, steps[0].step, steps[0].now);
      StreamedAccumulates(s', steps[1..], t);
      assert StreamsStay(s, s');
      StreamsStayInRun(s', steps[1..]);
    }
  }

  lemma {:induction false} StreamsStayInRun(s: State, steps: seq<Timed>)
    ensures StreamsStay(s, Run(s, steps))
    decreases steps
  {
    hide Apply;
    if steps != [] {
      ApplyStreamsStay(s, steps[0].step, steps[0].now);
      StreamsStayInRun(Apply(s, steps[0].step, steps[0].now), steps[1..]);
    }
  }

  /** Over a whole run at most `max` sessions of a retrieval transfer ever start to stream. */
  lemma AtMostMaxStream(s: State, steps: seq<Timed>, clock: int, t: nat)
    requires Inv(s, clock) && ClockAdvances(steps, clock)
    requires t in Run(s, steps).transfers && Run(s, steps).transfers[t].retrieval
    ensures |EverStreamed(s, steps, t)| <= Run(s, steps).transfers[t].max
  {
    hide Run, EverStreamed, Inv;
    SlotsInEveryRun(s, steps, clock, t);
    StreamedAccumulates(s, steps, t);
    var taken := Taken(Run(s, steps).sessions, t);
    assert EverStreamed(s, steps, t) <= taken;
    SubsetSize(EverStreamed(s, steps, t), taken);
  }

  // ---------- the life of one reservation ----------

  /** How a reservation and its deadline may move in one transaction. */
  predicate Evolves(s: State, s': State, id: nat)
    requires id in s.reservations
  {
    && id in s'.reservations
    && var r, r' := s.reservations[id], s'.reservations[id];
       && r'.upload == r.upload && r'.transfer == r.transfer && r'.session == r.session
       && (r.stage == Settled ==> r'.stage == Settled && r'.actual == r.actual)
       && (r.stage == Dropped ==> r'.stage == Dropped && r'.actual == r.actual)
       && (r.stage == Consuming ==> r'.stage == Consuming || r'.stage == Settled)
       && (r'.stage == Held || r'.stage == Consuming ==> r'.actual >= r.actual)
       && (id in s.runtimes ==> id in s'.runtimes && s'.runtimes[id].hard == s.runtimes[id].hard)
  }

  lemma FinishEvolves(s: State, id: nat, actual: int, now: int, other: nat)
    requires other in s.reservations && id in s.reservations
    requires (s.reservations[id].stage == Held || s.reservations[id].stage == Consuming)
    ensures Evolves(s, Finish(s, id, actual, now).state, other)
  {
    hide Streaming, ReadyFiles, CompletedFiles;
  }

  lemma SettleEvolves(s: State, id: nat, reported: int, forceFinal: bool, now: int, other: nat)
    requires other in s.reservations
    ensures Evolves(s, Settle(s, id, reported, forceFinal, now).state, other)
  {
    hide Reading, Finish;
    if id in s.reservations && s.reservations[id].upload in s.uploads
      && (s.reservations[id].stage == Held || s.reservations[id].stage == Consuming) {
      var r := s.reservations[id];
      var reading := Reading(s.uploads[r.upload], reported, forceFinal);
      if r.stage == Consuming && reading.Progress? {
        var running := WithRuntime(s, id, now);
        FinishEvolves(running, id, Max(reading.bytes, r.actual), now, other);
      } else if !reading.Malformed? {
        FinishEvolves(s, id, reading.bytes, now, other);
      }
    }
  }

  lemma RetrievalTicketsEvolve(
      s: State, q: Request, row: Option<nat>, newSession: nat, newReservation: nat, now: int, id: nat)
    requires id in s.reservations
    ensures Evolves(s, CreateRetrieval(s, q, row, newSession, newReservation, now).state, id)
  {
  }

  lemma LegacyTicketsEvolve(s: State, q: Request, newReservation: nat, now: int, id: nat)
    requires id in s.reservations
    ensures Evolves(s, CreateLegacy(s, q, newReservation, now).state, id)
  {
  }

  lemma BeginEvolves(s: State, started: nat, upload: Option<nat>, now: int, id: nat)
    requires id in s.reservations && LeasesBounded(s)
    ensures Evolves(s, Begin(s, started, upload, now).state, id)
  {
    hide BeginAllowed;
  }

  lemma AbortEvolves(s: State, given: nat, releaseSession: bool, now: int, id: nat)
    requires id in s.reservations
    ensures Evolves(s, Abort(s, given, releaseSession, now).state, id)
  {
    hide Streaming, HandBack;
  }

  lemma SweepEvolves(s: State, now: int, id: nat)
    requires id in s.reservations
    ensures Evolves(s, SweepSessions(s, now), id) && Evolves(s, SweepTickets(s, now), id)
  {
    hide Streaming, HandBack, LapsedOf;
  }

  lemma ApplyEvolves(s: State, step: Step, now: int, id: nat)
    requires id in s.reservations && LeasesBounded(s)
    ensures Evolves(s, Apply(s, step, now), id)
  {
    hide Settle, CreateRetrieval, CreateLegacy, Begin, Abort, SweepSessions, SweepTickets, QueryReturns, LeasesBounded;
    match step
    case GiveUp(given, releaseSession) => AbortEvolves(s, given, releaseSession, now, id);
    case SessionSweep => SweepEvolves(s, now, id);
    case TicketSweep => SweepEvolves(s, now, id);
    case Tell(told, reported, forceFinal) => SettleEvolves(s, told, reported, forceFinal, now, id);
    case RetrievalTicket(q, row, newSession, newReservation) =>
      RetrievalTicketsEvolve(s, q, row, newSession, newReservation, now, id);
    case LegacyTicket(q, newReservation) => LegacyTicketsEvolve(s, q, newReservation, now, id);
    case Start(started, upload) => BeginEvolves(s, started, upload, now, id);
    case _ =>
  }

  lemma EvolvesChain(a: State, b: State, c: State, id: nat)
    requires id in a.reservations && Evolves(a, b, id) && Evolves(b, c, id)
    ensures id in c.reservations && Evolves(a, c, id)
  {
  }

  /**
   Under any order and duplication of events: settled and dropped are final, progress
   never lowers the count, a settled count is frozen, and the deadline is fixed once.
   */
  lemma {:induction false} LifecycleInEveryRun(s: State, steps: seq<Timed>, clock: int, id: nat)
    requires Inv(s, clock) && ClockAdvances(steps, clock) && id in s.reservations
    ensures Evolves(s, Run(s, steps), id)
    decreases steps
  {
    hide Apply, Evolves, SlotsExact, Linked, StreamsAreActive, LeasesBounded;
    if steps == [] {
      SelfEvolves(s, id);
    } else {
      var s' := Apply(s, steps[0].step, steps[0].now);
      ApplyEvolves(s, steps[0].step, steps[0].now, id);
      ApplyKeeps(s, steps[0].step, clock, steps[0].now);
      EvolvedIn(s, s', id);
      LifecycleInEveryRun(s', steps[1..], steps[0].now, id);
      EvolvesChain(s, s', Run(s, steps), id);
    }
  }

  /** No lease ever passes the hard deadline. */
  lemma LeasesInEveryRun(s: State, steps: seq<Timed>, clock: int, id: nat)
    requires Inv(s, clock) && ClockAdvances(steps, clock) && id in Run(s, steps).runtimes
    ensures Run(s, steps).runtimes[id].lease <= Run(s, steps).runtimes[id].hard
  {
    hide Run, SlotsExact, Linked, StreamsAreActive;
    RunKeeps(s, steps, clock);
  }

  lemma SelfEvolves(s: State, id: nat)
    requires id in s.reservations
    ensures Evolves(s, s, id)
  {
  }

  lemma EvolvedIn(s: State, s': State, id: nat)
    requires id in s.reservations && Evolves(s, s', id)
    ensures id in s'.reservations
  {
  }

  /** Uploads keep the facts a report is read against. */
  lemma ApplyKeepsUploads(s: State, step: Step, now: int, u: nat)
    requires u in s.uploads
    ensures var s' := Apply(s, step, now);
      u in s'.uploads && s'.uploads[u].length == s.uploads[u].length && s'.uploads[u].node == s.uploads[u].node
  {
    hide Settle, Streaming, HandBack, LapsedOf, QueryReturns, BeginAllowed;
    if step.Tell? {
      SettleKeepsUploads(s, step.id, step.reported, step.forceFinal, now);
    }
  }

  lemma SettleKeepsUploads(s: State, id: nat, reported: int, forceFinal: bool, now: int)
    ensures Settle(s, id, reported, forceFinal, now).state.uploads == s.uploads
  {
    hide Reading, Streaming, ReadyFiles, CompletedFiles;
  }

  lemma {:induction false} RunKeepsUploads(s: State, steps: seq<Timed>, u: nat)
    requires u in s.uploads
    ensures var s' := Run(s, steps);
      u in s'.uploads && s'.uploads[u].length == s.uploads[u].length && s'.uploads[u].node == s.uploads[u].node
    decreases steps
  {
    hide Apply;
    if steps != [] {
      ApplyKeepsUploads(s, steps[0].step, steps[0].now, u);
      RunKeepsUploads(Apply(s, steps[0].step, steps[0].now), steps[1..], u);
    }
  }

  /** A report that settled a reservation can be repeated after any run: it succeeds and changes nothing. */
  lemma SettledReportRepeats(s: State, id: nat, reported: int, forceFinal: bool, now: int, steps: seq<Timed>, now': int)
    requires Inv(s, now) && ClockAdvances(steps, now)
    requires Settle(s, id, reported, forceFinal, now).outcome == Done
    requires Settle(s, id, reported, forceFinal, now).state.reservations[id].stage == Settled
    ensures var later := Run(Settle(s, id, reported, forceFinal, now).state, steps);
      Settle(later, id, reported, forceFinal, now') == Reply(later, Done)
  {
    hide Inv, Run, Settle, Reading;
    SettledCount(s, id, reported, forceFinal, now);
    var first := Settle(s, id, reported, forceFinal, now).state;
    SettleKeeps(s, id, reported, forceFinal, now);
    LifecycleInEveryRun(first, steps, now, id);
    RunKeepsUploads(first, steps, first.reservations[id].upload);
    var later := Run(first, steps);
    var upload := s.reservations[id].upload;
    SameReading(s.uploads[upload], later.uploads[upload], reported, forceFinal);
    RepeatOfSettled(later, id, reported, forceFinal, now');
  }

  lemma SameReading(u: Upload, u': Upload, reported: int, forceFinal: bool)
    requires u'.length == u.length && u'.node == u.node
    ensures Reading(u', reported, forceFinal) == Reading(u, reported, forceFinal)
  {
  }

  lemma RepeatOfSettled(s: State, id: nat, reported: int, forceFinal: bool, now: int)
    requires id in s.reservations && s.reservations[id].stage == Settled && s.reservations[id].upload in s.uploads
    requires var reading := Reading(s.uploads[s.reservations[id].upload], reported, forceFinal);
      !reading.Malformed? && reading.bytes == s.reservations[id].actual
    ensures Settle(s, id, reported, forceFinal, now) == Reply(s, Done)
  {
  }

  /** The count a report settles on is the one it carries. */
  lemma SettledCount(s: State, id: nat, reported: int, forceFinal: bool, now: int)
    requires Settle(s, id, reported, forceFinal, now).outcome == Done
    ensures id in s.reservations && s.reservations[id].upload in s.uploads
    ensures var s' := Settle(s, id, reported, forceFinal, now).state;
      && s'.uploads == s.uploads && id in s'.reservations && s'.reservations[id].upload == s.reservations[id].upload
      && !Reading(s.uploads[s.reservations[id].upload], reported, forceFinal).Malformed?
      && (s'.reservations[id].stage == Settled ==>
           s'.reservations[id].actual == Reading(s.uploads[s.reservations[id].upload], reported, forceFinal).bytes)
  {
    hide Reading, Streaming, ReadyFiles, CompletedFiles;
  }
}
