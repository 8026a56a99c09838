/**
 Solvency and conservation of the traffic ledger over every run: each transaction
 keeps the ledger invariant, so a reserved charge can always be settled or refunded.
 */
module TrafficSafety {
  import opened Basics
  import opened Sums
  import opened TrafficPlanner
  import opened TrafficLedger

  // ---------- one-point consequences of the invariant ----------

  /** Sources that no live charge of `user` names carry nothing. */
  lemma Unnamed(l: Ledger, user: nat, status: ChargeStatus, source: Source)
    requires ChargesWellFormed(l) && (status == Reserved || status == Settled) && !SourceOf(l, user, source)
    ensures Allocated(l.charges, user, status, source) == 0
  {
    var f := AllocatedAt(l.charges, user, status, source);
    forall u | u in l.charges ensures f(u) == 0 {
      if l.charges[u].status == status && l.charges[u].user == user {
        assert WellFormed(l, l.charges[u]);
        AllocOnAbsent(l.charges[u].allocations, source);
      }
    }
    SumZero(l.charges.Keys, f);
  }

  lemma NewUserOwesNothing(l: Ledger, user: nat)
    requires ChargesWellFormed(l) && HoldsHaveAccounts(l) && user !in l.accounts
    ensures Promised(l.charges, user) == 0 && LegacyHeld(l.legacy, user) == 0
  {
    forall u | u in l.charges ensures PromisedPart(l.charges, user, u) == 0 {
      if Live(l.charges[u]) {
        assert WellFormed(l, l.charges[u]);
      }
    }
    SumZero(l.charges.Keys, PromisedAt(l.charges, user));
    SumZero(l.legacy.Keys, LegacyAt(l.legacy, user));
  }

  lemma BalancesNonNegative(l: Ledger, user: nat, source: Source)
    requires Solvent(l)
    ensures Balance(l, user, source) >= 0
  {
    AllocatedBounds(l.charges, user, Reserved, source);
    assert Allocated(l.charges, user, Reserved, source) <= Balance(l, user, source);
  }

  /** Every source named by a live charge of `l` exists in `l'`. */
  ghost predicate NamedIn(l: Ledger, l': Ledger) {
    forall u, i :: u in l.charges && Live(l.charges[u]) && 0 <= i < |l.charges[u].allocations| ==>
      SourceOf(l', l.charges[u].user, l.charges[u].allocations[i].source)
  }

  lemma SourcesKept(l: Ledger, l': Ledger)
    requires ChargesWellFormed(l)
    requires forall user: nat, source: Source :: SourceOf(l, user, source) ==> SourceOf(l', user, source)
    ensures NamedIn(l, l')
  {
    forall u, i | u in l.charges && Live(l.charges[u]) && 0 <= i < |l.charges[u].allocations|
      ensures SourceOf(l', l.charges[u].user, l.charges[u].allocations[i].source)
    {
      assert WellFormed(l, l.charges[u]);
    }
  }

  // ---------- transactions that leave the charges alone ----------

  /** No source a transaction keeps loses balance, and none it drops was named. */
  lemma ChargesUntouched(l: Ledger, l': Ledger)
    requires ChargesWellFormed(l) && Solvent(l) && l'.charges == l.charges
    requires l.accounts.Keys <= l'.accounts.Keys && NamedIn(l, l')
    requires forall user: nat, source: Source :: Balance(l', user, source) >= if SourceOf(l', user, source)
      then Balance(l, user, source) else 0
    ensures ChargesWellFormed(l') && Solvent(l')
  {
    hide Allocated;
    forall u | u in l'.charges && Live(l'.charges[u]) ensures WellFormed(l', l'.charges[u]) {
      assert WellFormed(l, l.charges[u]);
    }
    forall user: nat, source: Source
      ensures Allocated(l'.charges, user, Reserved, source) <= Balance(l', user, source)
    {
      if SourceOf(l', user, source) {
        assert Allocated(l.charges, user, Reserved, source) <= Balance(l, user, source);
      } else {
        Unnamed(l', user, Reserved, source);
      }
    }
  }

  /** Opening or converting an account never lowers a balance. */
  lemma AccountsOnlyGain(l: Ledger, user: nat, initial: int, v: nat, source: Source)
    requires Solvent(l) && (user in l.accounts ==> !l.accounts[user].period.Monthly?)
    ensures var l' := EnsureAccount(l, user, initial);
      && (SourceOf(l, v, source) ==> SourceOf(l', v, source))
      && Balance(l', v, source) >= if SourceOf(l', v, source) then Balance(l, v, source) else 0
  {
    hide Allocated;
    BalancesNonNegative(l, v, source);
    BalancesNonNegative(l, user, Free(Unset));
  }

  lemma EnsureAccountCounts(l: Ledger, user: nat, initial: int)
    requires ChargesWellFormed(l) && Counted(l) && HoldsHaveAccounts(l)
    ensures Counted(EnsureAccount(l, user, initial)) && HoldsHaveAccounts(EnsureAccount(l, user, initial))
  {
    hide Promised, LegacyHeld;
    if user !in l.accounts {
      NewUserOwesNothing(l, user);
    }
  }

  lemma EnsureAccountKeeps(l: Ledger, user: nat, initial: int)
    requires Inv(l)
    ensures Inv(EnsureAccount(l, user, initial))
  {
    hide Allocated, Promised, LegacyHeld;
    var l' := EnsureAccount(l, user, initial);
    forall v: nat, source: Source
      ensures SourceOf(l, v, source) ==> SourceOf(l', v, source)
      ensures Balance(l', v, source) >= if SourceOf(l', v, source) then Balance(l, v, source) else 0
    {
      AccountsOnlyGain(l, user, initial, v, source);
    }
    SourcesKept(l, l');
    ChargesUntouched(l, l');
    EnsureAccountCounts(l, user, initial);
  }

  lemma OpenAccountKeeps(l: Ledger, user: nat)
    requires Inv(l)
    ensures Inv(OpenAccount(l, user))
  {
    hide Allocated, Promised, LegacyHeld;
    var l' := OpenAccount(l, user);
    forall v: nat, source: Source
      ensures (SourceOf(l, v, source) ==> SourceOf(l', v, source))
      ensures Balance(l', v, source) == Balance(l, v, source) >= 0
    {
      BalancesNonNegative(l, v, source);
    }
    SourcesKept(l, l');
    ChargesUntouched(l, l');
    if user !in l.accounts {
      NewUserOwesNothing(l, user);
    }
  }

  lemma GrantKeeps(l: Ledger, id: nat, user: nat, bytes: nat, expires: int, origin: Origin)
    requires Inv(l) && Grant(l, id, user, bytes, expires, origin).Ok?
    ensures Inv(Grant(l, id, user, bytes, expires, origin).value)
  {
    hide Allocated, Promised, LegacyHeld;
    var l' := Grant(l, id, user, bytes, expires, origin).value;
    forall v: nat, source: Source
      ensures (SourceOf(l, v, source) ==> SourceOf(l', v, source))
      ensures Balance(l', v, source) >= Balance(l, v, source) >= 0
    {
      BalancesNonNegative(l, v, source);
    }
    SourcesKept(l, l');
    ChargesUntouched(l, l');
    Unnamed(l, user, Settled, Paid(id));
  }

  /** A charge that names an unspent, unheld order entitlement is neither reserved nor settled. */
  lemma RevokedIsUnnamed(l: Ledger, order: nat, u: nat, id: nat)
    requires ChargesWellFormed(l) && Conserved(l) && RevokeOrder(l, order).Ok?
    requires u in l.charges && id in OrderEntitlements(l, order) && Names(l.charges[u], id)
    ensures !Live(l.charges[u])
  {
    hide Allocated;
    var c := l.charges[u];
    assert l.entitlements[id].remaining == l.entitlements[id].amount;
    if c.status == Settled {
      assert WellFormed(l, c);
      var i :| 0 <= i < |c.allocations| && c.allocations[i].source == Paid(id);
      AllocOnPresent(c.allocations, i);
      AllocatedBounds(l.charges, c.user, Settled, Paid(id));
      assert false;
    }
  }

  lemma RevokeOrderKeeps(l: Ledger, order: nat)
    requires Inv(l) && RevokeOrder(l, order).Ok?
    ensures Inv(RevokeOrder(l, order).value)
    ensures OrderEntitlements(RevokeOrder(l, order).value, order) == {}
  {
    hide Allocated, Promised, LegacyHeld;
    var l' := RevokeOrder(l, order).value;
    forall v: nat, source: Source
      ensures Balance(l', v, source) >= if SourceOf(l', v, source) then Balance(l, v, source) else 0
    {
      BalancesNonNegative(l, v, source);
    }
    forall u, i | u in l.charges && Live(l.charges[u]) && 0 <= i < |l.charges[u].allocations|
      ensures SourceOf(l', l.charges[u].user, l.charges[u].allocations[i].source)
    {
      assert WellFormed(l, l.charges[u]);
      var source := l.charges[u].allocations[i].source;
      if source.Paid? && source.entitlement in OrderEntitlements(l, order) {
        assert Names(l.charges[u], source.entitlement);
        RevokedIsUnnamed(l, order, u, source.entitlement);
      }
    }
    ChargesUntouched(l, l');
  }

  lemma ReleaseLegacyCounts(l: Ledger, reservation: nat, v: nat)
    requires Counted(l) && HoldsHaveAccounts(l) && reservation in l.legacy && v in l.accounts
    ensures var l' := ReleaseLegacy(l, reservation);
      l'.accounts[v].reserved == Promised(l'.charges, v) + LegacyHeld(l'.legacy, v)
  {
    hide Promised, LegacyHeld;
    LegacyChange(l.legacy, reservation, v);
    PromisedBounds(l, v);
  }

  lemma ReleaseLegacyKeeps(l: Ledger, reservation: nat)
    requires Inv(l)
    ensures Inv(ReleaseLegacy(l, reservation))
  {
    hide Allocated, Promised, LegacyHeld;
    if reservation in l.legacy {
      var l' := ReleaseLegacy(l, reservation);
      forall v: nat, source: Source
        ensures (SourceOf(l, v, source) ==> SourceOf(l', v, source))
        ensures Balance(l', v, source) == Balance(l, v, source) >= 0
      {
        BalancesNonNegative(l, v, source);
      }
      SourcesKept(l, l');
      ChargesUntouched(l, l');
      forall v: nat | v in l'.accounts
        ensures l'.accounts[v].reserved == Promised(l'.charges, v) + LegacyHeld(l'.legacy, v)
      {
        ReleaseLegacyCounts(l, reservation, v);
      }
    }
  }

  // ---------- transactions that move one charge ----------

  /** A moved charge may change its hold on a source only as far as the new balance allows. */
  lemma ChargeMoved(l: Ledger, l': Ledger, u: nat)
    requires ChargesWellFormed(l) && l.charges - {u} == l'.charges - {u}
    requires l.accounts.Keys <= l'.accounts.Keys && NamedIn(l, l')
    requires u in l'.charges && Live(l'.charges[u]) ==> WellFormed(l', l'.charges[u])
    requires forall v: nat, source: Source ::
      Allocated(l.charges, v, Reserved, source) - AllocatedPart(l.charges, v, Reserved, source, u)
        + AllocatedPart(l'.charges, v, Reserved, source, u)
        <= Balance(l', v, source)
    ensures ChargesWellFormed(l') && Solvent(l')
  {
    hide Allocated, AllocatedPart;
    SameRest(l.charges, l'.charges, u);
    SameRest(l'.charges, l.charges, u);
    forall w | w in l'.charges && Live(l'.charges[w]) ensures WellFormed(l', l'.charges[w]) {
      if w != u {
        assert WellFormed(l, l.charges[w]);
      }
    }
    forall v: nat, source: Source ensures Allocated(l'.charges, v, Reserved, source) <= Balance(l', v, source) {
      AllocatedChange(l.charges, l'.charges, u, v, Reserved, source);
    }
  }

  lemma {:induction false} OrderedListsAll(entitlements: map<nat, Entitlement>, ids: set<nat>)
    requires ids <= entitlements.Keys
    ensures forall id :: id in ids <==> id in Ordered(entitlements, ids)
    ensures forall i, j :: 0 <= i < j < |Ordered(entitlements, ids)| ==>
      Ordered(entitlements, ids)[i] != Ordered(entitlements, ids)[j]
    decreases ids
  {
    if ids != {} {
      var m := Ordered(entitlements, ids)[0];
      assert Ordered(entitlements, ids) == [m] + Ordered(entitlements, ids - {m});
      OrderedListsAll(entitlements, ids - {m});
    }
  }

  lemma SlotFacts(l: Ledger, user: nat, now: int)
    requires user in l.accounts
    ensures Distinct(Slots(l, user, now))
    ensures forall k :: 0 <= k < |Slots(l, user, now)| ==>
      var slot := Slots(l, user, now)[k];
      && slot == SlotOf(l, user, slot.source)
      && (slot.source.Free? ==> slot.source.period == l.accounts[user].period)
      && (slot.source.Paid? ==> slot.source.entitlement in Spendable(l, user, now))
  {
    hide Allocated;
    OrderedListsAll(l.entitlements, Spendable(l, user, now));
    var ids := Ordered(l.entitlements, Spendable(l, user, now));
    assert forall i :: 0 <= i < |ids| ==> ids[i] in Spendable(l, user, now);
  }

  /** A plan stays within what each source has left after the other holds. */
  lemma PlanFits(l: Ledger, user: nat, required: nat, now: int, source: Source)
    requires user in l.accounts && Solvent(l)
    ensures var plan := Fill(AfterLegacy(Slots(l, user, now), LegacyReserved(l, user)), required);
      && AllocOn(plan, source) <= Balance(l, user, source) - Allocated(l.charges, user, Reserved, source)
      && forall i :: 0 <= i < |plan| ==>
           plan[i].amount > 0 &&
           exists k :: 0 <= k < |Slots(l, user, now)| && Slots(l, user, now)[k].source == plan[i].source
  {
    hide Allocated;
    var slots := Slots(l, user, now);
    SlotFacts(l, user, now);
    PlanWithinSources(slots, LegacyReserved(l, user), required);
    assert Allocated(l.charges, user, Reserved, source) <= Balance(l, user, source);
    if k :| 0 <= k < |slots| && slots[k].source == source {
      assert slots[k] == SlotOf(l, user, source);
    } else {
      AllocOnAbsent(Fill(AfterLegacy(slots, LegacyReserved(l, user)), required), source);
    }
  }

  lemma ReserveHolds(l: Ledger, upload: nat, user: nat, required: nat, now: int, v: nat, source: Source)
    requires user in l.accounts && Solvent(l) && upload !in l.charges
    ensures var plan := Fill(AfterLegacy(Slots(l, user, now), LegacyReserved(l, user)), required);
      var charges' := l.charges[upload := Charge(user, required, Reserved, plan)];
      Allocated(l.charges, v, Reserved, source) - AllocatedPart(l.charges, v, Reserved, source, upload)
        + AllocatedPart(charges', v, Reserved, source, upload)
        <= Balance(l, v, source)
  {
    hide Allocated, Slots;
    PlanFits(l, user, required, now, source);
    assert Allocated(l.charges, v, Reserved, source) <= Balance(l, v, source);
  }

  /** Inserting or moving one charge of `user` changes that user's promise alone. */
  lemma MovedCounts(l: Ledger, l': Ledger, u: nat)
    requires Counted(l) && l.charges - {u} == l'.charges - {u} && l'.legacy == l.legacy
    requires l'.accounts.Keys == l.accounts.Keys
    requires forall v :: v in l.accounts ==>
      && l'.accounts[v].period == l.accounts[v].period
      && l'.accounts[v].reserved - l.accounts[v].reserved
           == PromisedPart(l'.charges, v, u) - PromisedPart(l.charges, v, u)
    ensures Counted(l')
  {
    hide Promised, LegacyHeld, PromisedPart;
    forall v: nat | v in l'.accounts
      ensures !l'.accounts[v].period.Monthly?
      ensures l'.accounts[v].reserved == Promised(l'.charges, v) + LegacyHeld(l'.legacy, v)
    {
      PromisedChange(l.charges, l'.charges, u, v);
    }
  }

  /** Moving one charge keeps conservation if what it newly settles left the balance. */
  lemma MovedConserves(l: Ledger, l': Ledger, u: nat)
    requires Conserved(l) && l.charges - {u} == l'.charges - {u} && l'.entitlements.Keys == l.entitlements.Keys
    requires forall id :: id in l.entitlements ==>
      var e, e' := l.entitlements[id], l'.entitlements[id];
      && e'.user == e.user && e'.amount == e.amount
      && e.remaining - e'.remaining
           == AllocatedPart(l'.charges, e.user, Settled, Paid(id), u)
           - AllocatedPart(l.charges, e.user, Settled, Paid(id), u)
    ensures Conserved(l')
  {
    hide Allocated, AllocatedPart;
    forall id | id in l'.entitlements
      ensures l'.entitlements[id].remaining + Allocated(l'.charges, l'.entitlements[id].user, Settled, Paid(id))
        == l'.entitlements[id].amount
    {
      AllocatedChange(l.charges, l'.charges, u, l.entitlements[id].user, Settled, Paid(id));
    }
  }

  /** The part of a reservation after the account is ready. */
  function Insert(l: Ledger, upload: nat, user: nat, required: nat, now: int): Ledger
    requires user in l.accounts
  {
    var plan := Fill(AfterLegacy(Slots(l, user, now), LegacyReserved(l, user)), required);
    var a := l.accounts[user];
    l.(charges := l.charges[upload := Charge(user, required, Reserved, plan)],
       accounts := l.accounts[user := a.(reserved := a.reserved + required)])
  }

  lemma InsertPlan(l: Ledger, upload: nat, user: nat, required: nat, now: int)
    requires user in l.accounts && Solvent(l) && l.accounts[user].period == Permanent
    requires PlanFor(Slots(l, user, now), LegacyReserved(l, user), required).Covered?
    ensures var l' := Insert(l, upload, user, required, now); WellFormed(l', l'.charges[upload])
  {
    hide Allocated, Slots, LegacyReserved, Fill;
    var slots := Slots(l, user, now);
    var l' := Insert(l, upload, user, required, now);
    var plan := l'.charges[upload].allocations;
    PlanFits(l, user, required, now, Free(Permanent));
    SlotFacts(l, user, now);
    forall i | 0 <= i < |plan| ensures plan[i].amount > 0 && SourceOf(l', user, plan[i].source) {
      var k :| 0 <= k < |slots| && slots[k].source == plan[i].source;
    }
  }

  lemma InsertSolvent(l: Ledger, upload: nat, user: nat, required: nat, now: int)
    requires ChargesWellFormed(l) && Solvent(l) && upload !in l.charges && user in l.accounts
    requires l.accounts[user].period == Permanent
    requires PlanFor(Slots(l, user, now), LegacyReserved(l, user), required).Covered?
    ensures ChargesWellFormed(Insert(l, upload, user, required, now)) && Solvent(Insert(l, upload, user, required, now))
  {
    hide Allocated, AllocatedPart, Slots, LegacyReserved, Fill, AfterLegacy, WellFormed, PlanFor;
    var l' := Insert(l, upload, user, required, now);
    assert l.charges - {upload} == l'.charges - {upload};
    forall v: nat, source: Source
      ensures SourceOf(l, v, source) ==> SourceOf(l', v, source)
      ensures Allocated(l.charges, v, Reserved, source) - AllocatedPart(l.charges, v, Reserved, source, upload)
            + AllocatedPart(l'.charges, v, Reserved, source, upload) <= Balance(l', v, source)
    {
      ReserveHolds(l, upload, user, required, now, v, source);
      assert Balance(l', v, source) == Balance(l, v, source);
    }
    InsertPlan(l, upload, user, required, now);
    SourcesKept(l, l');
    ChargeMoved(l, l', upload);
  }

  lemma InsertBooks(l: Ledger, upload: nat, user: nat, required: nat, now: int)
    requires Counted(l) && Conserved(l) && HoldsHaveAccounts(l) && upload !in l.charges && user in l.accounts
    ensures var l' := Insert(l, upload, user, required, now); Counted(l') && Conserved(l') && HoldsHaveAccounts(l')
  {
    hide Allocated, Promised, LegacyHeld, Slots, LegacyReserved, Fill, AfterLegacy, AllocOn, AllocTotal;
    var l' := Insert(l, upload, user, required, now);
    assert l.charges - {upload} == l'.charges - {upload};
    MovedCounts(l, l', upload);
    MovedConserves(l, l', upload);
  }

  lemma ReserveKeeps(l: Ledger, upload: nat, user: nat, required: int, initial: int, now: int)
    requires Inv(l) && Reserve(l, upload, user, required, initial, now).Ok?
    ensures Inv(Reserve(l, upload, user, required, initial, now).value)
  {
    hide ChargesWellFormed, Solvent, Counted, Conserved, HoldsHaveAccounts, Slots, LegacyReserved, Fill, AfterLegacy;
    var ready := EnsureAccount(l, user, initial);
    EnsureAccountKeeps(l, user, initial);
    InsertSolvent(ready, upload, user, required, now);
    InsertBooks(ready, upload, user, required, now);
  }

  /** Any reserved charge of a sound ledger can be paid in full. */
  lemma ReservedIsPayable(l: Ledger, upload: nat)
    requires Inv(l) && upload in l.charges && l.charges[upload].status == Reserved
    ensures Payable(l, l.charges[upload])
    ensures l.accounts[l.charges[upload].user].reserved >= l.charges[upload].amount
  {
    hide Allocated, Promised, LegacyHeld;
    var c := l.charges[upload];
    assert WellFormed(l, c);
    PromisedBounds(l, c.user);
    forall i | 0 <= i < |c.allocations|
      ensures AllocOn(c.allocations, c.allocations[i].source) <= Balance(l, c.user, c.allocations[i].source)
    {
      AllocatedBounds(l.charges, c.user, Reserved, c.allocations[i].source);
    }
  }

  /**
   Settling or refunding a reserved charge is never rejected, whatever expired or
   was refunded since it was taken.
   */
  lemma ResolvingNeverRejected(l: Ledger, upload: nat)
    requires Inv(l) && upload in l.charges && l.charges[upload].status == Reserved
    ensures Settle(l, upload).Ok? && Settle(l, upload).value.charges[upload].status == Settled
    ensures Refund(l, upload).Ok? && Refund(l, upload).value.charges[upload].status == Refunded
  {
    hide Allocated, Promised, LegacyHeld;
    assert WellFormed(l, l.charges[upload]);
    ReservedIsPayable(l, upload);
  }

  lemma SettleBalances(l: Ledger, upload: nat, v: nat, source: Source)
    requires upload in l.charges && l.charges[upload].status == Reserved && WellFormed(l, l.charges[upload])
    requires Settle(l, upload).Ok?
    requires Allocated(l.charges, v, Reserved, source) <= Balance(l, v, source)
    ensures var l' := Settle(l, upload).value;
      && (SourceOf(l, v, source) ==> SourceOf(l', v, source))
      && Allocated(l.charges, v, Reserved, source) - AllocatedPart(l.charges, v, Reserved, source, upload)
           + AllocatedPart(l'.charges, v, Reserved, source, upload)
        <= Balance(l', v, source)
  {
    hide Allocated, AllocOn, AllocTotal;
    var c := l.charges[upload];
    if v == c.user && !SourceOf(l, v, source) {
      AllocOnAbsent(c.allocations, source);
    }
  }

  /** A reserved charge leaves the reserved state: settled with its debit, or refunded without. */
  lemma ResolvedSolvent(l: Ledger, upload: nat, l': Ledger)
    requires ChargesWellFormed(l) && Solvent(l) && upload in l.charges && l.charges[upload].status == Reserved
    requires Settle(l, upload) == Ok(l') || Refund(l, upload) == Ok(l')
    ensures ChargesWellFormed(l') && Solvent(l')
  {
    hide Allocated, AllocatedPart;
    assert WellFormed(l, l.charges[upload]);
    assert l.charges - {upload} == l'.charges - {upload};
    forall v: nat, source: Source
      ensures SourceOf(l, v, source) ==> SourceOf(l', v, source)
      ensures Allocated(l.charges, v, Reserved, source) - AllocatedPart(l.charges, v, Reserved, source, upload)
            + AllocatedPart(l'.charges, v, Reserved, source, upload) <= Balance(l', v, source)
    {
      assert Allocated(l.charges, v, Reserved, source) <= Balance(l, v, source);
      if Settle(l, upload) == Ok(l') {
        SettleBalances(l, upload, v, source);
      } else {
        RefundBalances(l, upload, v, source);
      }
    }
    SourcesKept(l, l');
    ResolvedWellFormed(l, upload, l');
    ChargeMoved(l, l', upload);
  }

  lemma RefundBalances(l: Ledger, upload: nat, v: nat, source: Source)
    requires upload in l.charges && l.charges[upload].status == Reserved && Refund(l, upload).Ok?
    requires Allocated(l.charges, v, Reserved, source) <= Balance(l, v, source)
    ensures var l' := Refund(l, upload).value;
      && (SourceOf(l, v, source) ==> SourceOf(l', v, source))
      && Allocated(l.charges, v, Reserved, source) - AllocatedPart(l.charges, v, Reserved, source, upload)
           + AllocatedPart(l'.charges, v, Reserved, source, upload)
        <= Balance(l', v, source)
  {
    hide Allocated;
  }

  lemma ResolvedWellFormed(l: Ledger, upload: nat, l': Ledger)
    requires upload in l.charges && l.charges[upload].status == Reserved && WellFormed(l, l.charges[upload])
    requires Settle(l, upload) == Ok(l') || Refund(l, upload) == Ok(l')
    requires forall v: nat, source: Source :: SourceOf(l, v, source) ==> SourceOf(l', v, source)
    ensures upload in l'.charges && l'.accounts.Keys == l.accounts.Keys && WellFormed(l', l'.charges[upload])
  {
  }

  lemma ResolvedBooks(l: Ledger, upload: nat, l': Ledger)
    requires Counted(l) && Conserved(l) && HoldsHaveAccounts(l) && upload in l.charges
    requires l.charges[upload].status == Reserved
    requires Settle(l, upload) == Ok(l') || Refund(l, upload) == Ok(l')
    ensures Counted(l') && Conserved(l') && HoldsHaveAccounts(l')
  {
    hide Allocated, Promised, LegacyHeld, AllocOn, AllocTotal, Payable;
    assert l.charges - {upload} == l'.charges - {upload};
    assert Counted(l') by {
      MovedCounts(l, l', upload);
    }
    assert Conserved(l') by {
      MovedConserves(l, l', upload);
    }
  }

  lemma SettleKeeps(l: Ledger, upload: nat)
    requires Inv(l) && Settle(l, upload).Ok?
    ensures Inv(Settle(l, upload).value)
  {
    hide ChargesWellFormed, Solvent, Counted, Conserved, HoldsHaveAccounts;
    if upload in l.charges && l.charges[upload].status == Reserved {
      ResolvedSolvent(l, upload, Settle(l, upload).value);
      ResolvedBooks(l, upload, Settle(l, upload).value);
    }
  }

  lemma RefundKeeps(l: Ledger, upload: nat)
    requires Inv(l) && Refund(l, upload).Ok?
    ensures Inv(Refund(l, upload).value)
  {
    hide ChargesWellFormed, Solvent, Counted, Conserved, HoldsHaveAccounts;
    if upload in l.charges && l.charges[upload].status == Reserved {
      ResolvedSolvent(l, upload, Refund(l, upload).value);
      ResolvedBooks(l, upload, Refund(l, upload).value);
    }
  }
}
