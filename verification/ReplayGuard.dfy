/**
 Replay protection of signed internal requests. Instants are in nanoseconds, request
 timestamps in whole seconds, and the guard forgets a nonce once its window has passed.
 */
module ReplayGuard {
  const SECOND := 1_000_000_000
  const SKEW := 60

  /** `authentic` stands for the header, domain and signature checks. */
  datatype Request = Request(node: string, nonce: string, timestamp: int, authentic: bool)

  datatype Verdict = Accepted | AuthFailed | Replayed

  datatype Outcome = Outcome(verdict: Verdict, seen: map<string, int>)

  function Unix(now: int): int {
    now / SECOND
  }

  predicate IdChar(c: char) {
    'a' <= c <= 'z' || 'A' <= c <= 'Z' || '0' <= c <= '9' || c == '-' || c == '_'
  }

  predicate ValidNonce(s: string) {
    8 <= |s| <= 128 && forall i :: 0 <= i < |s| ==> IdChar(s[i])
  }

  predicate ValidNode(s: string) {
    1 <= |s| <= 64 && forall i :: 0 <= i < |s| ==> IdChar(s[i]) || s[i] == '.'
  }

  predicate InWindow(timestamp: int, now: int) {
    now - SKEW * SECOND <= timestamp * SECOND <= now + SKEW * SECOND
  }

  /** The checks that precede the guard. */
  predicate Genuine(r: Request, expected: string, now: int) {
    r.node == expected && ValidNode(r.node) && InWindow(r.timestamp, now) && ValidNonce(r.nonce) && r.authentic
  }

  function Key(node: string, nonce: string): string {
    node + ['\0'] + nonce
  }

  function Pruned(seen: map<string, int>, now: int): map<string, int> {
    map k | k in seen && seen[k] >= Unix(now) :: seen[k]
  }

  function Verify(seen: map<string, int>, r: Request, expected: string, now: int): Outcome {
    if !Genuine(r, expected, now) then Outcome(AuthFailed, seen)
    else
      var kept := Pruned(seen, now);
      var key := Key(r.node, r.nonce);
      if key in kept && kept[key] >= Unix(now) then Outcome(Replayed, kept)
      else Outcome(Accepted, kept[key := r.timestamp + SKEW])
  }

  /** The character loop over a nonce. */
  method ValidInternalNonce(value: string) returns (ok: bool)
    ensures ok == ValidNonce(value)
  {
    if |value| < 8 || |value| > 128 {
      return false;
    }
    for i := 0 to |value|
      invariant forall k :: 0 <= k < i ==> IdChar(value[k])
    {
      var c := value[i];
      if 'a' <= c <= 'z' || 'A' <= c <= 'Z' || '0' <= c <= '9' || c == '-' || c == '_' {
        continue;
      }
      return false;
    }
    return true;
  }

  /** The same over a node id, which may also hold dots. */
  method ValidStorageNodeID(value: string) returns (ok: bool)
    ensures ok == ValidNode(value)
  {
    if |value| < 1 || |value| > 64 {
      return false;
    }
    for i := 0 to |value|
      invariant forall k :: 0 <= k < i ==> IdChar(value[k]) || value[k] == '.'
    {
      var c := value[i];
      if 'a' <= c <= 'z' || 'A' <= c <= 'Z' || '0' <= c <= '9' || c == '-' || c == '_' || c == '.' {
        continue;
      }
      return false;
    }
    return true;
  }

  /** The guard as the server keeps it. */
  class Guard {
    var seen: map<string, int>

    constructor ()
      ensures seen == map[]
    {
      seen := map[];
    }

    method Accept(node: string, nonce: string, signedAt: int, now: int) returns (ok: bool)
      modifies this
      ensures var kept := Pruned(old(seen), now);
        && ok == (Key(node, nonce) !in kept)
        && seen == if ok then kept[Key(node, nonce) := signedAt + SKEW] else kept
    {
      var rest, at := seen.Keys, Unix(now);
      while rest != {}
        invariant rest <= old(seen).Keys
        invariant seen == map k | k in old(seen) && (k in rest || old(seen)[k] >= at) :: old(seen)[k]
        decreases rest
      {
        var candidate :| candidate in rest;
        if seen[candidate] < at {
          seen := seen - {candidate};
        }
        rest := rest - {candidate};
      }
      assert seen == Pruned(old(seen), now);
      var key := Key(node, nonce);
      if key in seen && seen[key] >= at {
        return false;
      }
      seen := seen[key := signedAt + SKEW];
      return true;
    }

    method VerifyInternalRequest(r: Request, expected: string, now: int) returns (v: Verdict)
      modifies this
      ensures Outcome(v, seen) == Verify(old(seen), r, expected, now)
    {
      if !Genuine(r, expected, now) {
        return AuthFailed;
      }
      var ok := Accept(r.node, r.nonce, r.timestamp, now);
      return if ok then Accepted else Replayed;
    }
  }

  // ---------- the guard that never forgets ----------

  datatype Arrival = Arrival(request: Request, expected: string, now: int)

  /** An accepted request whose window is still open at second `at` used this node and nonce. */
  predicate Used(history: seq<Request>, node: string, nonce: string, at: int) {
    exists i :: 0 <= i < |history| && history[i].node == node && history[i].nonce == nonce
      && history[i].timestamp + SKEW >= at
  }

  function Judge(history: seq<Request>, a: Arrival): Verdict {
    if !Genuine(a.request, a.expected, a.now) then AuthFailed
    else if Used(history, a.request.node, a.request.nonce, Unix(a.now)) then Replayed
    else Accepted
  }

  /** Every request accepted so far, with nothing ever dropped. */
  function History(arrivals: seq<Arrival>): seq<Request> {
    if arrivals == [] then [] else
      var before, last := History(arrivals[..|arrivals| - 1]), arrivals[|arrivals| - 1];
      if Judge(before, last) == Accepted then before + [last.request] else before
  }

  /** The map after a run of a fresh guard. */
  function Seen(arrivals: seq<Arrival>): map<string, int> {
    if arrivals == [] then map[] else
      var last := arrivals[|arrivals| - 1];
      Verify(Seen(arrivals[..|arrivals| - 1]), last.request, last.expected, last.now).seen
  }

  function VerdictAt(arrivals: seq<Arrival>, i: nat): Verdict
    requires i < |arrivals|
  {
    Verify(Seen(arrivals[..i]), arrivals[i].request, arrivals[i].expected, arrivals[i].now).verdict
  }

  predicate ClockRuns(arrivals: seq<Arrival>) {
    forall i, j :: 0 <= i <= j < |arrivals| ==> arrivals[i].now <= arrivals[j].now
  }

  lemma KeyInjective(node: string, nonce: string, node': string, nonce': string)
    requires ValidNode(node) && ValidNode(node') && Key(node, nonce) == Key(node', nonce')
    ensures node == node' && nonce == nonce'
  {
    var k := Key(node, nonce);
    assert k[|node|] == '\0' && k[|node'|] == '\0';
    assert |node| == |node'|;
    assert node == k[..|node|] == node' && nonce == k[|node| + 1..] == nonce';
  }

  /** The map answers every question about the present and the future as the history does. */
  ghost predicate Agrees(seen: map<string, int>, history: seq<Request>, from: int) {
    && (forall i :: 0 <= i < |history| ==> ValidNode(history[i].node))
    && (forall node, nonce, at :: ValidNode(node) && at >= from ==>
          (Used(history, node, nonce, at) <==> Key(node, nonce) in seen && seen[Key(node, nonce)] >= at))
  }

  lemma UsedAppend(history: seq<Request>, r: Request, node: string, nonce: string, at: int)
    ensures Used(history + [r], node, nonce, at) <==>
      Used(history, node, nonce, at) || (r.node == node && r.nonce == nonce && r.timestamp + SKEW >= at)
  {
    var all := history + [r];
    if Used(history, node, nonce, at) {
      var i :| 0 <= i < |history| && history[i].node == node && history[i].nonce == nonce
        && history[i].timestamp + SKEW >= at;
      assert all[i] == history[i];
    }
    assert all[|history|] == r;
  }

  /** Accepting a request at the second `from` extends both sides alike. */
  lemma AcceptAgrees(seen: map<string, int>, history: seq<Request>, r: Request, from: int)
    requires Agrees(seen, history, from) && ValidNode(r.node) && !Used(history, r.node, r.nonce, from)
    ensures Agrees(seen[Key(r.node, r.nonce) := r.timestamp + SKEW], history + [r], from)
  {
    var seen' := seen[Key(r.node, r.nonce) := r.timestamp + SKEW];
    forall node, nonce, at | ValidNode(node) && at >= from
      ensures Used(history + [r], node, nonce, at) <==> Key(node, nonce) in seen' && seen'[Key(node, nonce)] >= at
    {
      UsedAppend(history, r, node, nonce, at);
      if Key(node, nonce) == Key(r.node, r.nonce) {
        KeyInjective(node, nonce, r.node, r.nonce);
        assert Used(history, node, nonce, at) ==> Used(history, node, nonce, from);
      }
    }
  }

  lemma StepAgrees(seen: map<string, int>, history: seq<Request>, from: int, a: Arrival)
    requires Agrees(seen, history, from) && from <= Unix(a.now)
    ensures Verify(seen, a.request, a.expected, a.now).verdict == Judge(history, a)
    ensures Agrees(
      Verify(seen, a.request, a.expected, a.now).seen,
      if Judge(history, a) == Accepted then history + [a.request] else history,
      Unix(a.now))
  {
    hide Key, ValidNode, ValidNonce, InWindow, Used;
    assert Agrees(Pruned(seen, a.now), history, Unix(a.now));
    if Judge(history, a) == Accepted {
      AcceptAgrees(Pruned(seen, a.now), history, a.request, Unix(a.now));
    }
  }

  lemma {:induction false} RunAgrees(arrivals: seq<Arrival>, from: int)
    requires ClockRuns(arrivals) && (arrivals != [] ==> Unix(arrivals[|arrivals| - 1].now) <= from)
    ensures Agrees(Seen(arrivals), History(arrivals), from)
  {
    if arrivals != [] {
      var front, last := arrivals[..|arrivals| - 1], arrivals[|arrivals| - 1];
      assert front != [] ==> front[|front| - 1].now <= last.now;
      RunAgrees(front, Unix(last.now));
      hide Verify, Used, Key, ValidNode;
      StepAgrees(Seen(front), History(front), Unix(last.now), last);
    }
  }

  /** Pruning is unobservable: every verdict is that of a guard that never forgets. */
  lemma PruningIsUnobservable(arrivals: seq<Arrival>, i: nat)
    requires ClockRuns(arrivals) && i < |arrivals|
    ensures VerdictAt(arrivals, i) == Judge(History(arrivals[..i]), arrivals[i])
  {
    RunAgrees(arrivals[..i], Unix(arrivals[i].now));
    hide Verify, Judge, Agrees;
    StepAgrees(Seen(arrivals[..i]), History(arrivals[..i]), Unix(arrivals[i].now), arrivals[i]);
  }

  lemma {:induction false} HistoryRemembers(arrivals: seq<Arrival>, i: nat, j: nat)
    requires ClockRuns(arrivals) && i < j <= |arrivals| && VerdictAt(arrivals, i) == Accepted
    ensures arrivals[i].request in History(arrivals[..j])
  {
    var now := arrivals[..j];
    assert now[..|now| - 1] == arrivals[..j - 1];
    if j == i + 1 {
      PruningIsUnobservable(arrivals, i);
    } else {
      HistoryRemembers(arrivals, i, j - 1);
    }
  }

  /** An entry is dropped only when the skew check already refuses its timestamp. */
  lemma DroppedIsTooOld(timestamp: int, now: int)
    requires timestamp + SKEW < Unix(now)
    ensures !InWindow(timestamp, now)
  {
  }

  /** A request is accepted at most once in a run, although entries are dropped. */
  lemma AcceptedAtMostOnce(arrivals: seq<Arrival>, i: nat, j: nat)
    requires ClockRuns(arrivals) && i < j < |arrivals|
    requires arrivals[i].request.node == arrivals[j].request.node
    requires arrivals[i].request.nonce == arrivals[j].request.nonce
    requires arrivals[i].request.timestamp == arrivals[j].request.timestamp
    requires VerdictAt(arrivals, i) == Accepted
    ensures VerdictAt(arrivals, j) != Accepted
  {
    HistoryRemembers(arrivals, i, j);
    PruningIsUnobservable(arrivals, j);
    var r := arrivals[j].request;
    if r.timestamp + SKEW < Unix(arrivals[j].now) {
      DroppedIsTooOld(r.timestamp, arrivals[j].now);
    } else {
      assert Used(History(arrivals[..j]), r.node, r.nonce, Unix(arrivals[j].now));
    }
  }

  /** An earlier request with the same node and nonce whose sixty seconds are not over. */
  predicate Blocks(earlier: Request, r: Request, now: int) {
    earlier.node == r.node && earlier.nonce == r.nonce && earlier.timestamp + 60 >= now / 1_000_000_000
  }

  /** One of the first `i` arrivals was accepted and blocks `r`. */
  predicate Blocked(arrivals: seq<Arrival>, i: nat, r: Request, now: int)
    requires i <= |arrivals|
  {
    exists k :: 0 <= k < i && VerdictAt(arrivals, k) == Accepted && Blocks(arrivals[k].request, r, now)
  }

  /** The history holds the accepted requests and nothing else. */
  lemma {:induction false} HistoryIsAccepted(arrivals: seq<Arrival>, i: nat, r: Request, now: int)
    requires ClockRuns(arrivals) && i <= |arrivals|
    ensures Used(History(arrivals[..i]), r.node, r.nonce, Unix(now)) <==> Blocked(arrivals, i, r, now)
  {
    if i > 0 {
      HistoryIsAccepted(arrivals, i - 1, r, now);
      PruningIsUnobservable(arrivals, i - 1);
      var before, last := History(arrivals[..i - 1]), arrivals[i - 1];
      assert arrivals[..i][..i - 1] == arrivals[..i - 1] && arrivals[..i][i - 1] == last;
      UsedAppend(before, last.request, r.node, r.nonce, Unix(now));
      hide Judge, VerdictAt, Used;
      OneMoreBlocks(arrivals, i, r, now);
    }
  }

  lemma OneMoreBlocks(arrivals: seq<Arrival>, i: nat, r: Request, now: int)
    requires 0 < i <= |arrivals|
    ensures Blocked(arrivals, i, r, now) <==>
      || Blocked(arrivals, i - 1, r, now)
      || (VerdictAt(arrivals, i - 1) == Accepted && Blocks(arrivals[i - 1].request, r, now))
  {
    hide VerdictAt, Blocks;
  }

  /**
   A request is accepted exactly when it is addressed to the expected node, authentic, well
   formed, within sixty seconds either way, and not blocked by one accepted before.
   */
  lemma AcceptedExactly(arrivals: seq<Arrival>, i: nat)
    requires ClockRuns(arrivals) && i < |arrivals|
    ensures var a, r := arrivals[i], arrivals[i].request;
      VerdictAt(arrivals, i) == Accepted <==>
        && r.authentic && r.node == a.expected && ValidNode(r.node) && ValidNonce(r.nonce)
        && -60_000_000_000 <= r.timestamp * 1_000_000_000 - a.now <= 60_000_000_000
        && !Blocked(arrivals, i, r, a.now)
  {
    PruningIsUnobservable(arrivals, i);
    HistoryIsAccepted(arrivals, i, arrivals[i].request, arrivals[i].now);
    hide ValidNode, ValidNonce, Verify, Blocked, Used, VerdictAt;
  }
}
