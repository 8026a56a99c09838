/**
 Settlements and refunds of different uploads commute: the ledger after a batch of
 decisions depends on which charges were settled, not on the order of callbacks.
 */
module TrafficConfluence {
  import opened Basics
  import opened Sums
  import opened TrafficPlanner
  import opened TrafficLedger
  import opened TrafficSafety

  datatype Decision = Decision(upload: nat, settle: bool)

  function Decide(l: Ledger, d: Decision): Ledger {
    var r := if d.settle then Settle(l, d.upload) else Refund(l, d.upload);
    if r.Ok? then r.value else l
  }

  function DecideAll(l: Ledger, ds: seq<Decision>): Ledger {
    if ds == [] then l else Decide(DecideAll(l, ds[..|ds| - 1]), ds[|ds| - 1])
  }

  // ---------- the order-free description ----------

  function SpentPart(l: Ledger, m: map<nat, bool>, user: nat, source: Source, u: nat): nat {
    if u in m && m[u] && u in l.charges && l.charges[u].user == user then AllocOn(l.charges[u].allocations, source)
      else 0
  }

  function SpentAt(l: Ledger, m: map<nat, bool>, user: nat, source: Source): nat -> int {
    (u: nat) => SpentPart(l, m, user, source, u)
  }

  /** Bytes the settled decisions in `m` take from one source. */
  function Spent(l: Ledger, m: map<nat, bool>, user: nat, source: Source): int {
    Sum(m.Keys, SpentAt(l, m, user, source))
  }

  function FreedPart(l: Ledger, m: map<nat, bool>, user: nat, u: nat): nat {
    if u in m && u in l.charges && l.charges[u].user == user then l.charges[u].amount else 0
  }

  function FreedAt(l: Ledger, m: map<nat, bool>, user: nat): nat -> int {
    (u: nat) => FreedPart(l, m, user, u)
  }

  /** Bytes the decisions in `m` return to the reserved counter. */
  function Freed(l: Ledger, m: map<nat, bool>, user: nat): int {
    Sum(m.Keys, FreedAt(l, m, user))
  }

  function AccountAfter(l: Ledger, m: map<nat, bool>, user: nat): Account
    requires user in l.accounts
  {
    var a := l.accounts[user];
    a.(free := a.free - Spent(l, m, user, Free(a.period)), reserved := a.reserved - Freed(l, m, user))
  }

  function EntitlementAfter(l: Ledger, m: map<nat, bool>, id: nat): Entitlement
    requires id in l.entitlements
  {
    var e := l.entitlements[id];
    e.(remaining := e.remaining - Spent(l, m, e.user, Paid(id)))
  }

  function ChargeAfter(l: Ledger, m: map<nat, bool>, u: nat): Charge
    requires u in l.charges
  {
    if u in m then l.charges[u].(status := if m[u] then Settled else Refunded) else l.charges[u]
  }

  function After(l: Ledger, m: map<nat, bool>): Ledger {
    Ledger(map user | user in l.accounts :: AccountAfter(l, m, user),
           map id | id in l.entitlements :: EntitlementAfter(l, m, id),
           map u | u in l.charges :: ChargeAfter(l, m, u),
           l.legacy)
  }

  lemma SpentGrows(l: Ledger, m: map<nat, bool>, d: Decision, user: nat, source: Source)
    requires d.upload !in m
    ensures var m' := m[d.upload := d.settle];
      Spent(l, m', user, source) == Spent(l, m, user, source) + SpentPart(l, m', user, source, d.upload)
  {
    hide Sum;
    var m' := m[d.upload := d.settle];
    SumChange(m.Keys, SpentAt(l, m, user, source), m'.Keys, SpentAt(l, m', user, source), d.upload);
  }

  lemma FreedGrows(l: Ledger, m: map<nat, bool>, d: Decision, user: nat)
    requires d.upload !in m
    ensures var m' := m[d.upload := d.settle];
      Freed(l, m', user) == Freed(l, m, user) + FreedPart(l, m', user, d.upload)
  {
    hide Sum;
    var m' := m[d.upload := d.settle];
    SumChange(m.Keys, FreedAt(l, m, user), m'.Keys, FreedAt(l, m', user), d.upload);
  }

  lemma NothingDecided(l: Ledger)
    ensures After(l, map[]) == l
  {
    var none: map<nat, bool> := map[];
    assert forall user, source :: Spent(l, none, user, source) == 0;
    assert forall user :: Freed(l, none, user) == 0;
    hide Spent, Freed;
    assert After(l, none).accounts == l.accounts;
    assert After(l, none).entitlements == l.entitlements;
    assert After(l, none).charges == l.charges;
  }

  /** What one more decision does to the ledger described so far. */
  function Closed(before: Ledger, d: Decision): Ledger
    requires d.upload in before.charges && before.charges[d.upload].user in before.accounts
  {
    var c := before.charges[d.upload];
    if d.settle then Close(Debit(before, c.user, c.allocations), d.upload, Settled)
      else Close(before, d.upload, Refunded)
  }

  lemma OneMoreAccount(l: Ledger, m: map<nat, bool>, d: Decision, user: nat)
    requires d.upload in l.charges && d.upload !in m && l.charges[d.upload].user in l.accounts && user in l.accounts
    ensures Closed(After(l, m), d).accounts[user] == AccountAfter(l, m[d.upload := d.settle], user)
  {
    hide Spent, Freed, AllocOn;
    SpentGrows(l, m, d, user, Free(l.accounts[user].period));
    FreedGrows(l, m, d, user);
  }

  lemma OneMoreEntitlement(l: Ledger, m: map<nat, bool>, d: Decision, id: nat)
    requires d.upload in l.charges && d.upload !in m && l.charges[d.upload].user in l.accounts && id in l.entitlements
    ensures Closed(After(l, m), d).entitlements[id] == EntitlementAfter(l, m[d.upload := d.settle], id)
  {
    hide Spent, Freed, AllocOn;
    SpentGrows(l, m, d, l.entitlements[id].user, Paid(id));
  }

  lemma OneMore(l: Ledger, m: map<nat, bool>, d: Decision)
    requires d.upload in l.charges && d.upload !in m && l.charges[d.upload].user in l.accounts
    ensures Closed(After(l, m), d) == After(l, m[d.upload := d.settle])
  {
    hide Spent, Freed, AllocOn, AccountAfter, EntitlementAfter;
    var closed, after := Closed(After(l, m), d), After(l, m[d.upload := d.settle]);
    assert closed.accounts == after.accounts by {
      forall user | user in l.accounts ensures closed.accounts[user] == after.accounts[user] {
        OneMoreAccount(l, m, d, user);
      }
    }
    assert closed.entitlements == after.entitlements by {
      forall id | id in l.entitlements ensures closed.entitlements[id] == after.entitlements[id] {
        OneMoreEntitlement(l, m, d, id);
      }
    }
    assert closed.charges == after.charges;
  }

  ghost predicate AllReserved(l: Ledger, ds: seq<Decision>) {
    forall i :: 0 <= i < |ds| ==> ds[i].upload in l.charges && l.charges[ds[i].upload].status == Reserved
  }

  predicate DistinctUploads(ds: seq<Decision>) {
    forall i, j :: 0 <= i < j < |ds| ==> ds[i].upload != ds[j].upload
  }

  function Decisions(ds: seq<Decision>): map<nat, bool> {
    if ds == [] then map[] else Decisions(ds[..|ds| - 1])[ds[|ds| - 1].upload := ds[|ds| - 1].settle]
  }

  lemma {:induction false} DecisionsAre(ds: seq<Decision>)
    requires DistinctUploads(ds)
    ensures forall u, s :: (u in Decisions(ds) && Decisions(ds)[u] == s) <==> Decision(u, s) in ds
    decreases ds
  {
    if ds != [] {
      var front, last := ds[..|ds| - 1], ds[|ds| - 1];
      DecisionsAre(front);
      assert ds == front + [last];
      forall u, s ensures (u in Decisions(ds) && Decisions(ds)[u] == s) <==> Decision(u, s) in ds {
        if u == last.upload {
          assert forall i :: 0 <= i < |front| ==> front[i].upload != u;
        }
      }
    }
  }

  /** Any order of distinct decisions leaves the ledger that `After` describes. */
  lemma {:induction false} DecideAllIsAfter(l: Ledger, ds: seq<Decision>)
    requires Inv(l) && AllReserved(l, ds) && DistinctUploads(ds)
    ensures DecideAll(l, ds) == After(l, Decisions(ds)) && Inv(DecideAll(l, ds))
    decreases ds
  {
    hide Inv, After, Settle, Refund;
    if ds == [] {
      NothingDecided(l);
    } else {
      var front, last := ds[..|ds| - 1], ds[|ds| - 1];
      DecideAllIsAfter(l, front);
      LastUndecided(front, last, ds);
      DecideOne(l, Decisions(front), last);
    }
  }

  lemma LastUndecided(front: seq<Decision>, last: Decision, ds: seq<Decision>)
    requires ds == front + [last] && DistinctUploads(ds)
    ensures last.upload !in Decisions(front)
  {
    assert ds[|ds| - 1] == last && forall i :: 0 <= i < |front| ==> front[i] == ds[i];
    if last.upload in Decisions(front) {
      DecidedByOne(front, last.upload);
    }
  }

  lemma {:induction false} DecidedByOne(ds: seq<Decision>, u: nat)
    requires u in Decisions(ds)
    ensures exists i :: 0 <= i < |ds| && ds[i].upload == u
    decreases ds
  {
    if ds[|ds| - 1].upload != u {
      DecidedByOne(ds[..|ds| - 1], u);
    }
  }

  lemma DecideOne(l: Ledger, m: map<nat, bool>, d: Decision)
    requires Inv(l) && Inv(After(l, m)) && d.upload !in m && d.upload in l.charges
    requires l.charges[d.upload].status == Reserved
    ensures Decide(After(l, m), d) == After(l, m[d.upload := d.settle]) && Inv(Decide(After(l, m), d))
  {
    hide Spent, Freed, AllocOn, AllocTotal, Payable, Allocated, Promised, LegacyHeld;
    var before := After(l, m);
    assert before.charges[d.upload] == l.charges[d.upload];
    assert WellFormed(l, l.charges[d.upload]);
    assert WellFormed(before, l.charges[d.upload]);
    DecidedKeeps(before, d);
    OneMore(l, m, d);
  }

  lemma DecidedKeeps(l: Ledger, d: Decision)
    requires Inv(l) && d.upload in l.charges && l.charges[d.upload].status == Reserved
    ensures Inv(Decide(l, d)) && Settle(l, d.upload).Ok? && Refund(l, d.upload).Ok?
  {
    hide Inv, Settle, Refund;
    ResolvingNeverRejected(l, d.upload);
    SettleKeeps(l, d.upload);
    RefundKeeps(l, d.upload);
  }

  lemma SameDecisions(ds: seq<Decision>, es: seq<Decision>)
    requires DistinctUploads(ds) && DistinctUploads(es) && forall d :: d in ds <==> d in es
    ensures Decisions(ds) == Decisions(es)
  {
    DecisionsAre(ds);
    DecisionsAre(es);
    var m, n := Decisions(ds), Decisions(es);
    hide Decisions;
    forall u | u in m ensures u in n && n[u] == m[u] {
      assert Decision(u, m[u]) in ds;
    }
    forall u | u in n ensures u in m {
      assert Decision(u, n[u]) in es;
    }
    assert m == n;
  }

  /** Confluence: the same decisions in any two orders give the same ledger. */
  lemma OrderDoesNotMatter(l: Ledger, ds: seq<Decision>, es: seq<Decision>)
    requires Inv(l) && AllReserved(l, ds) && DistinctUploads(ds) && DistinctUploads(es)
    requires multiset(ds) == multiset(es)
    ensures DecideAll(l, ds) == DecideAll(l, es)
  {
    hide Inv, After;
    forall d ensures d in ds <==> d in es {
      assert d in ds <==> d in multiset(ds);
      assert d in es <==> d in multiset(es);
    }
    assert AllReserved(l, es) by {
      forall i | 0 <= i < |es| ensures es[i].upload in l.charges && l.charges[es[i].upload].status == Reserved {
        assert es[i] in ds;
      }
    }
    SameDecisions(ds, es);
    DecideAllIsAfter(l, ds);
    DecideAllIsAfter(l, es);
  }
}
