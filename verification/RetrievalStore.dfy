/** The store methods of the retrieval tables, row by row. */
module RetrievalStore {
  import opened Basics
  import opened Sums
  import opened DownloadReports
  import opened Retrieval

  function Partial(s: State, done: set<nat>, now: int): map<nat, Session> {
    map id | id in s.sessions :: if id in done then s.sessions[id].(status := Released, expires := now)
      else s.sessions[id]
  }

  function Within(s: State, done: set<nat>, t: nat): set<nat> {
    set id | id in done && id in s.sessions && s.sessions[id].transfer == t
  }

  function PartialTransfers(s: State, done: set<nat>, now: int): map<nat, Transfer> {
    map t | t in s.transfers :: HandBack(s.transfers[t], |Within(s, done, t)|, now)
  }

  /** Handing back one more slot after `n` is handing back `n + 1`. */
  lemma HandBackAgain(x: Transfer, n: nat, now: int)
    ensures HandBack(HandBack(x, n, now), 1, now) == HandBack(x, n + 1, now)
  {
  }

  lemma OneMoreWithin(s: State, done: set<nat>, id: nat, t: nat)
    requires id in s.sessions && id !in done
    ensures |Within(s, done + {id}, t)| == |Within(s, done, t)| + if s.sessions[id].transfer == t then 1 else 0
  {
    assert Within(s, done + {id}, t) == Within(s, done, t) + if s.sessions[id].transfer == t then {id} else {};
  }

  /** Releasing one more session and handing its slot back extends both tables. */
  lemma OneMoreReleased(s: State, done: set<nat>, id: nat, now: int)
    requires id in s.sessions && id !in done
    ensures Partial(s, done, now)[id := s.sessions[id].(status := Released, expires := now)]
      == Partial(s, done + {id}, now)
    ensures var t := s.sessions[id].transfer;
      PartialTransfers(s, done + {id}, now) ==
        if t in s.transfers
        then PartialTransfers(s, done, now)[t := HandBack(PartialTransfers(s, done, now)[t], 1, now)]
        else PartialTransfers(s, done, now)
  {
    hide HandBack, Within;
    forall t | t in s.transfers
      ensures PartialTransfers(s, done + {id}, now)[t] ==
        if t == s.sessions[id].transfer then HandBack(PartialTransfers(s, done, now)[t], 1, now)
          else PartialTransfers(s, done, now)[t]
    {
      OneMoreWithin(s, done, id, t);
      HandBackAgain(s.transfers[t], |Within(s, done, t)|, now);
    }
  }

  class Store {
    var transfers: map<nat, Transfer>
    var sessions: map<nat, Session>
    var reservations: map<nat, Reservation>
    var runtimes: map<nat, Runtime>
    var uploads: map<nat, Upload>

    ghost function View(): State
      reads this
    {
      State(transfers, sessions, reservations, runtimes, uploads)
    }

    /** Releases the given sessions one by one and hands each slot back. */
    method ReleaseSessions(expired: set<nat>, now: int)
      requires expired <= sessions.Keys
      modifies this`transfers, this`sessions
      ensures sessions == Partial(old(View()), expired, now) && transfers == PartialTransfers(old(View()), expired, now)
    {
      ghost var s := View();
      var pending := expired;
      ghost var done: set<nat> := {};
      assert Partial(s, done, now) == s.sessions && PartialTransfers(s, done, now) == s.transfers;
      while pending != {}
        invariant done !! pending && done + pending == expired
        invariant sessions == Partial(s, done, now) && transfers == PartialTransfers(s, done, now)
        decreases pending
      {
        var id :| id in pending;
        pending := pending - {id};
        OneMoreReleased(s, done, id, now);
        assert id in sessions && sessions[id] == s.sessions[id] && transfers.Keys == s.transfers.Keys;
        done := done + {id};
        hide Partial, PartialTransfers, HandBack;
        var session := sessions[id];
        sessions := sessions[id := session.(status := Released, expires := now)];
        if session.transfer in transfers {
          transfers := transfers[session.transfer := HandBack(transfers[session.transfer], 1, now)];
        }
      }
      assert done == expired;
    }

    /**
     Drops the tickets of lapsed sessions, releases those sessions while handing
     their slots back, and closes active sessions whose time is over.
     */
    method ReleaseExpiredRetrievalSessions(now: int)
      modifies this`transfers, this`sessions, this`reservations
      ensures View() == SweepSessions(old(View()), now)
    {
      var s := State(transfers, sessions, reservations, runtimes, uploads);
      var expired := set id | id in sessions && Lapsed(s, id, now) && !Streaming(s, id);
      SweptTables(s, expired, now);
      SamePartial(s, DroppedTickets(s, now), expired, now);
      hide Partial, PartialTransfers, SweepSessions, Lapsed, Streaming, DroppedTickets, ClosedSessions;
      reservations := DroppedTickets(s, now);
      ReleaseSessions(expired, now);
      sessions := ClosedSessions(s, sessions, now);
    }

    method AbortRetrievalDownloadReservation(id: nat, releaseSession: bool, now: int) returns (outcome: Outcome)
      modifies this`transfers, this`sessions, this`reservations
      ensures Reply(View(), outcome) == Abort(old(View()), id, releaseSession, now)
    {
      if id !in reservations {
        return Failed(NotFound);
      }
      var r := reservations[id];
      if r.stage == Held {
        reservations := reservations[id := r.(stage := Dropped)];
      }
      if releaseSession && r.session.Some? {
        var session := r.session.value;
        var consuming := exists o ::
          o in reservations && reservations[o].session == Some(session) && reservations[o].stage == Consuming;
        if session in sessions && sessions[session].status == Provisional && !consuming {
          sessions := sessions[session := sessions[session].(status := Released, expires := now)];
          if r.transfer in transfers {
            transfers := transfers[r.transfer := HandBack(transfers[r.transfer], 1, now)];
          }
        }
      }
      return Done;
    }

    method BeginDownloadReservation(id: nat, upload: Option<nat>, now: int) returns (outcome: Outcome)
      modifies this`transfers, this`sessions, this`reservations, this`runtimes
      ensures Reply(View(), outcome) == Begin(old(View()), id, upload, now)
    {
      if id !in reservations {
        return Failed(NotFound);
      }
      var r := reservations[id];
      if r.stage != Held || r.expires <= now || (upload.Some? && upload.value != r.upload) {
        return Failed(Conflict);
      }
      var allowed := false;
      match r.session {
        case None =>
          if r.transfer in transfers {
            var t := transfers[r.transfer];
            allowed := t.status == Available && t.expires > now && t.downloads < t.max;
            if allowed {
              transfers := transfers[r.transfer := t.(downloads := t.downloads + 1)];
            }
          }
        case Some(session) =>
          allowed := session in sessions && Usable(sessions[session], r.transfer, now) && r.transfer in transfers
            && Serving(transfers[r.transfer], now);
          if allowed {
            sessions := sessions[session := sessions[session].(status := Active, expires := sessions[session].hard)];
          }
      }
      if !allowed {
        reservations := reservations[id := r.(stage := Dropped)];
        return Failed(QuotaExceeded);
      }
      var hard := now + MAX_DURATION;
      reservations := reservations[id := r.(stage := Consuming, expires := hard)];
      runtimes := runtimes[id := Runtime(Min(now + LEASE, hard), hard)];
      return Done;
    }

    /** The final half of a settlement, shared by final reports and progress past the deadline. */
    method FinishReservation(id: nat, actual: int, now: int) returns (outcome: Outcome)
      requires id in reservations
      modifies this`transfers, this`sessions, this`reservations
      ensures Reply(View(), outcome) == Finish(old(View()), id, actual, now)
    {
      hide Streaming, ReadyFiles, CompletedFiles;
      var r := reservations[id];
      if r.stage == Consuming && actual > 0 && r.session.Some? {
        if r.session.value !in sessions || sessions[r.session.value].status != Active {
          return Failed(SessionNotActive);
        }
      }
      if r.stage == Consuming && actual <= 0 && r.session.None? && r.transfer in transfers {
        var t := transfers[r.transfer];
        transfers := transfers[r.transfer := t.(downloads := Max(t.downloads - 1, 0))];
      }
      reservations := reservations[id := r.(stage := Settled, actual := actual)];
      if r.stage == Consuming && actual > 0 {
        var s := State(transfers, sessions, reservations, runtimes, uploads);
        sessions := CloseCompleted(s, r.session, r.transfer, now).sessions;
      }
      return Done;
    }

    method SettleDownloadReservation(id: nat, reported: int, forceFinal: bool, now: int) returns (outcome: Outcome)
      modifies this`transfers, this`sessions, this`reservations, this`runtimes
      ensures Reply(View(), outcome) == Settle(old(View()), id, reported, forceFinal, now)
    {
      hide Reading, Finish;
      if id !in reservations || reservations[id].upload !in uploads {
        return Failed(NotFound);
      }
      var r := reservations[id];
      var reading := Reading(uploads[r.upload], reported, forceFinal);
      if reading.Malformed? {
        return Failed(Error.Malformed);
      }
      if r.stage == Dropped {
        return Done;
      }
      if r.stage == Settled {
        return if r.actual == reading.bytes then Done else Failed(Conflict);
      }
      if r.stage == Consuming && reading.Progress? {
        if reading.bytes < r.actual {
          return Failed(Conflict);
        }
        var reservationsBefore, runtimesBefore := reservations, runtimes;
        if id !in runtimes {
          var hard := now + MAX_DURATION;
          runtimes := runtimes[id := Runtime(Min(now + LEASE, hard), hard)];
          reservations := reservations[id := r.(expires := hard)];
        }
        var hard := runtimes[id].hard;
        if now < hard {
          if reading.bytes > 0 && r.session.Some?
            && (r.session.value !in sessions || sessions[r.session.value].status != Active) {
            reservations, runtimes := reservationsBefore, runtimesBefore;
            return Failed(SessionNotActive);
          }
          reservations := reservations[id := reservations[id].(actual := Max(reservations[id].actual, reading.bytes))];
          runtimes := runtimes[id := Runtime(Min(now + LEASE, hard), hard)];
          return Done;
        }
        outcome := FinishReservation(id, Max(reading.bytes, r.actual), now);
        if outcome != Done {
          FailedFinish(old(View()), id, Max(reading.bytes, r.actual), now);
          reservations, runtimes := reservationsBefore, runtimesBefore;
        }
        return;
      }
      outcome := FinishReservation(id, reading.bytes, now);
    }
  }

  /** `UPDATE ... SET status='released'` over the unused tickets of lapsed sessions. */
  function DroppedTickets(s: State, now: int): map<nat, Reservation> {
    map r | r in s.reservations ::
      if s.reservations[r].stage == Held && s.reservations[r].session.Some?
        && Lapsed(s, s.reservations[r].session.value, now)
      then s.reservations[r].(stage := Dropped) else s.reservations[r]
  }

  /** `UPDATE ... SET status='closed'` over expired active sessions with nothing streaming. */
  function ClosedSessions(s: State, sessions: map<nat, Session>, now: int): map<nat, Session> {
    map id | id in sessions ::
      if sessions[id].status == Active && sessions[id].expires <= now && !Streaming(s, id)
        then sessions[id].(status := Closed) else sessions[id]
  }

  lemma SamePartial(s: State, reservations: map<nat, Reservation>, done: set<nat>, now: int)
    ensures Partial(s.(reservations := reservations), done, now) == Partial(s, done, now)
    ensures PartialTransfers(s.(reservations := reservations), done, now) == PartialTransfers(s, done, now)
  {
    hide HandBack;
    var s' := s.(reservations := reservations);
    forall t | t in s.transfers ensures Within(s', done, t) == Within(s, done, t) {
    }
  }

  lemma SweptTables(s: State, all: set<nat>, now: int)
    requires all == set id | id in s.sessions && Lapsed(s, id, now) && !Streaming(s, id)
    ensures SweepSessions(s, now)
      == State(PartialTransfers(s, all, now), ClosedSessions(s, Partial(s, all, now), now), DroppedTickets(s, now),
      s.runtimes, s.uploads)
  {
    hide HandBack, Streaming;
    var swept := SweepSessions(s, now);
    forall t | t in s.transfers ensures Within(s, all, t) == LapsedOf(s, t, now) {
    }
    assert swept.transfers == PartialTransfers(s, all, now);
    assert swept.sessions == ClosedSessions(s, Partial(s, all, now), now);
    assert swept.reservations == DroppedTickets(s, now);
  }

  lemma FailedFinish(s: State, id: nat, actual: int, now: int)
    requires id in s.reservations
    ensures Finish(WithRuntime(s, id, now), id, actual, now).outcome != Done ==>
      Finish(WithRuntime(s, id, now), id, actual, now).state == WithRuntime(s, id, now)
  {
    hide CloseCompleted;
  }
}
