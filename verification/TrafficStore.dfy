/**
 The store that runs the traffic transactions row by row. Each method is proved
 against the ledger transaction of the same name, including its rollback.
 */
module TrafficStore {
  import opened Basics
  import opened Sums
  import opened TrafficPlanner
  import opened TrafficLedger
  import opened TrafficRuns

  /** One `UPDATE ... SET remaining = remaining - ?` against a single source. */
  function DebitOne(l: Ledger, user: nat, a: Allocation): Ledger
    requires user in l.accounts
  {
    match a.source
    case Free(period) =>
      if l.accounts[user].period != period then l else
        l.(accounts := l.accounts[user := l.accounts[user].(free := l.accounts[user].free - a.amount)])
    case Paid(id) =>
      if id !in l.entitlements || l.entitlements[id].user != user then l else
        var e := l.entitlements[id];
        l.(entitlements := l.entitlements[id := e.(remaining := e.remaining - a.amount)])
  }

  lemma DebitStep(l: Ledger, user: nat, allocations: seq<Allocation>, i: nat)
    requires user in l.accounts && i < |allocations|
    ensures Debit(l, user, allocations[..i + 1]) == DebitOne(Debit(l, user, allocations[..i]), user, allocations[i])
  {
    hide AllocOn;
    var a := allocations[i];
    var before, after := Debit(l, user, allocations[..i]), Debit(l, user, allocations[..i + 1]);
    AllocOnPrefix(allocations, i, Free(l.accounts[user].period));
    forall id | id in l.entitlements ensures after.entitlements[id] == DebitOne(before, user, a).entitlements[id] {
      AllocOnPrefix(allocations, i, Paid(id));
    }
    assert after.entitlements == DebitOne(before, user, a).entitlements;
    assert after.accounts == DebitOne(before, user, a).accounts;
  }

  lemma DebitNothing(l: Ledger, user: nat)
    requires user in l.accounts
    ensures Debit(l, user, []) == l
  {
    assert Debit(l, user, []).entitlements == l.entitlements;
    assert Debit(l, user, []).accounts == l.accounts;
  }

  /** The updates run so far all matched: the first `i` allocations could be paid. */
  predicate PaidSoFar(l: Ledger, c: Charge, i: nat)
    requires i <= |c.allocations|
  {
    forall j :: 0 <= j < i ==>
      var source := c.allocations[j].source;
      && (source.Free? ==> c.user in l.accounts && source.period == l.accounts[c.user].period)
      && AllocOn(c.allocations[..i], source) <= Balance(l, c.user, source)
  }

  /** Running one update after another finds a missing row exactly when the charge is not payable. */
  lemma AffectsStep(l: Ledger, c: Charge, i: nat)
    requires c.user in l.accounts && i < |c.allocations| && PaidSoFar(l, c, i)
    ensures Affects(Debit(l, c.user, c.allocations[..i]), c.user, c.allocations[i]) ==> PaidSoFar(l, c, i + 1)
    ensures !Affects(Debit(l, c.user, c.allocations[..i]), c.user, c.allocations[i]) && c.allocations[i].amount > 0 ==>
      !Payable(l, c)
  {
    hide AllocOn;
    var a := c.allocations[i];
    AllocOnPrefix(c.allocations, i, a.source);
    if Affects(Debit(l, c.user, c.allocations[..i]), c.user, a) {
      forall j | 0 <= j < i + 1
        ensures AllocOn(c.allocations[..i + 1], c.allocations[j].source) <= Balance(l, c.user, c.allocations[j].source)
      {
        AllocOnPrefix(c.allocations, i, c.allocations[j].source);
      }
    }
  }

  lemma ObstacleStep(l: Ledger, c: Charge, i: nat)
    requires c.user in l.accounts && i < |c.allocations|
    ensures c.user in Debit(l, c.user, c.allocations[..i]).accounts
    ensures Obstacle(l, c, i) ==
      if Affects(Debit(l, c.user, c.allocations[..i]), c.user, c.allocations[i]) then Obstacle(l, c, i + 1)
      else if c.allocations[i].source.Free? && c.allocations[i].source.period != l.accounts[c.user].period then Conflict
      else TrafficExceeded
  {
  }

  class Store {
    var accounts: map<nat, Account>
    var entitlements: map<nat, Entitlement>
    var charges: map<nat, Charge>
    var legacy: map<nat, Hold>

    ghost function State(): Ledger
      reads this
    {
      Ledger(accounts, entitlements, charges, legacy)
    }

    /** The table constraint on allocation rows. */
    predicate PositiveAllocations()
      reads this
    {
      forall u, i :: u in charges && 0 <= i < |charges[u].allocations| ==> charges[u].allocations[i].amount > 0
    }

    method EnsureTrafficAccount(user: nat, initial: int)
      modifies this
      ensures State() == EnsureAccount(old(State()), user, initial)
    {
      var grant := if initial < 0 then 0 else initial;
      if user !in accounts {
        accounts := accounts[user := Account(grant, Permanent, 0)];
      } else if accounts[user].period != Permanent {
        var free := accounts[user].free;
        if accounts[user].period == Unset && free == 0 {
          free := grant;
        }
        accounts := accounts[user := accounts[user].(free := free, period := Permanent)];
      }
    }

    /** The planner's queries and its two passes, for one user at one instant. */
    method PlanUploadTraffic(user: nat, required: nat, now: int) returns (plan: Plan)
      requires user in accounts
      ensures plan == PlanFor(Slots(State(), user, now), LegacyReserved(State(), user), required)
      ensures plan.Covered? <==> required <= Capacity(Slots(State(), user, now), LegacyReserved(State(), user))
    {
      var l := Ledger(accounts, entitlements, charges, legacy);
      plan := PlanAllocations(Slots(l, user, now), LegacyReserved(l, user), required);
    }

    method ReserveUploadTraffic(
        upload: nat, user: nat, required: int, initial: int, now: int) returns (r: Result<(), Error>)
      modifies this
      ensures State() == Commit(old(State()), Reserve(old(State()), upload, user, required, initial, now))
      ensures r.Ok? == Reserve(old(State()), upload, user, required, initial, now).Ok?
      ensures r.Err? ==> r.error == Reserve(old(State()), upload, user, required, initial, now).error
    {
      hide Slots, LegacyReserved, PlanFor;
      if required < 0 {
        return Err(Conflict);
      }
      var before := accounts;
      EnsureTrafficAccount(user, initial);
      var plan := PlanUploadTraffic(user, required, now);
      if plan.Exceeded? || upload in charges {
        accounts := before;
        return Err(if plan.Exceeded? then TrafficExceeded else Conflict);
      }
      charges := charges[upload := Charge(user, required, Reserved, plan.allocations)];
      accounts := accounts[user := accounts[user].(reserved := accounts[user].reserved + required)];
      return Ok(());
    }

    /** One conditional update; `stale` when the free period has moved on. */
    method DebitRow(user: nat, a: Allocation) returns (affected: bool, stale: bool)
      requires user in accounts
      modifies this`accounts, this`entitlements
      ensures affected == Affects(old(State()), user, a)
      ensures stale == (a.source.Free? && a.source.period != old(accounts)[user].period)
      ensures State() == if affected then DebitOne(old(State()), user, a) else old(State())
    {
      affected, stale := false, false;
      match a.source {
        case Free(period) =>
          if accounts[user].period != period {
            stale := true;
          } else if accounts[user].free >= a.amount {
            accounts := accounts[user := accounts[user].(free := accounts[user].free - a.amount)];
            affected := true;
          }
        case Paid(id) =>
          if id in entitlements && entitlements[id].user == user && entitlements[id].remaining >= a.amount {
            entitlements := entitlements[id := entitlements[id].(remaining := entitlements[id].remaining - a.amount)];
            affected := true;
          }
      }
    }

    /**
     Takes every allocation of a charge from its source, one conditional update at a
     time, and rolls all of them back as soon as one matches no row.
     */
    method DebitAll(ghost l: Ledger, c: Charge) returns (paid: bool, error: Error)
      requires l == State() && c.user in accounts
      requires forall i :: 0 <= i < |c.allocations| ==> c.allocations[i].amount > 0
      modifies this`accounts, this`entitlements
      ensures paid == Payable(l, c) && (!paid ==> error == Obstacle(l, c, 0))
      ensures State() == if paid then Debit(l, c.user, c.allocations) else l
    {
      var accountsBefore, entitlementsBefore := accounts, entitlements;
      DebitNothing(l, c.user);
      assert c.allocations[..0] == [];
      for i := 0 to |c.allocations|
        invariant State() == Debit(l, c.user, c.allocations[..i])
        invariant PaidSoFar(l, c, i) && Obstacle(l, c, i) == Obstacle(l, c, 0)
      {
        hide Debit, Payable, PaidSoFar, Obstacle;
        ObstacleStep(l, c, i);
        var a := c.allocations[i];
        AffectsStep(l, c, i);
        DebitStep(l, c.user, c.allocations, i);
        DebitKeepsUser(l, c.user, c.allocations[..i]);
        var affected, stale := DebitRow(c.user, a);
        if !affected {
          accounts, entitlements := accountsBefore, entitlementsBefore;
          return false, if stale then Conflict else TrafficExceeded;
        }
      }
      assert c.allocations[..|c.allocations|] == c.allocations;
      return true, TrafficExceeded;
    }

    method SettleUploadTraffic(upload: nat) returns (r: Result<(), Error>)
      requires PositiveAllocations()
      modifies this
      ensures State() == Commit(old(State()), Settle(old(State()), upload))
      ensures r.Ok? == Settle(old(State()), upload).Ok? && (r.Err? ==> r.error == Settle(old(State()), upload).error)
    {
      if upload !in charges || charges[upload].status == Settled || charges[upload].status == Grandfathered {
        return Ok(());
      }
      var c := charges[upload];
      if c.status == Refunded || AllocTotal(c.allocations) != c.amount {
        return Err(Conflict);
      }
      if c.user !in accounts {
        return Err(NotFound);
      }
      ghost var l := State();
      var accountsBefore, entitlementsBefore := accounts, entitlements;
      var paid, error := DebitAll(l, c);
      if !paid {
        return Err(error);
      }
      if accounts[c.user].reserved < c.amount {
        accounts, entitlements := accountsBefore, entitlementsBefore;
        return Err(Conflict);
      }
      charges := charges[upload := c.(status := Settled)];
      accounts := accounts[c.user := accounts[c.user].(reserved := accounts[c.user].reserved - c.amount)];
      return Ok(());
    }

    method RefundUploadTraffic(upload: nat) returns (r: Result<(), Error>)
      modifies this
      ensures State() == Commit(old(State()), Refund(old(State()), upload))
      ensures r.Ok? == Refund(old(State()), upload).Ok? && (r.Err? ==> r.error == Refund(old(State()), upload).error)
    {
      if upload !in charges || charges[upload].status != Reserved {
        return Ok(());
      }
      var c := charges[upload];
      if AllocTotal(c.allocations) != c.amount || c.user !in accounts || accounts[c.user].reserved < c.amount {
        return Err(Conflict);
      }
      charges := charges[upload := c.(status := Refunded)];
      accounts := accounts[c.user := accounts[c.user].(reserved := accounts[c.user].reserved - c.amount)];
      return Ok(());
    }
  }

  lemma DebitKeepsUser(l: Ledger, user: nat, allocations: seq<Allocation>)
    requires user in l.accounts
    ensures user in Debit(l, user, allocations).accounts
    ensures Debit(l, user, allocations).accounts[user].period == l.accounts[user].period
    ensures Debit(l, user, allocations).charges == l.charges && Debit(l, user, allocations).legacy == l.legacy
  {
  }
}
