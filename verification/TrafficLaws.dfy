/** What each ledger transaction does, told by its effect on balances, holds and sources. */
module TrafficLaws {
  import opened Basics
  import opened Sums
  import opened TrafficPlanner
  import opened TrafficLedger
  import opened TrafficSafety
  import opened TrafficSummary
  import Ledgers = TrafficRuns

  // ---------- the order of the sources ----------

  /** `a` is spent before `b`: it expires earlier, or at the same time with the smaller id. */
  predicate Sooner(entitlements: map<nat, Entitlement>, a: nat, b: nat) {
    && a in entitlements && b in entitlements
    && (|| entitlements[a].expires < entitlements[b].expires
        || (entitlements[a].expires == entitlements[b].expires && a < b))
  }

  predicate SortedByExpiry(entitlements: map<nat, Entitlement>, ids: seq<nat>) {
    forall i, j :: 0 <= i < j < |ids| ==> Sooner(entitlements, ids[i], ids[j])
  }

  lemma {:induction false} OrderedIsSorted(entitlements: map<nat, Entitlement>, ids: set<nat>)
    requires ids <= entitlements.Keys
    ensures SortedByExpiry(entitlements, Ordered(entitlements, ids))
    decreases ids
  {
    OrderedListsAll(entitlements, ids);
    if ids != {} {
      var all := Ordered(entitlements, ids);
      var m := all[0];
      assert IsFirst(entitlements, ids, m) && all == [m] + Ordered(entitlements, ids - {m});
      OrderedIsSorted(entitlements, ids - {m});
      forall i, j | 0 <= i < j < |all| ensures Sooner(entitlements, all[i], all[j]) {
        assert all[j] in ids && all[i] != all[j];
        if i == 0 {
          assert Before(entitlements, m, all[j]);
        } else {
          assert all[i] == all[1..][i - 1] && all[j] == all[1..][j - 1];
        }
      }
    }
  }

  /** An entitlement the user can still upload with. */
  predicate Unspent(l: Ledger, user: nat, now: int, id: nat) {
    && id in l.entitlements && l.entitlements[id].user == user
    && l.entitlements[id].expires > now && l.entitlements[id].remaining > 0
  }

  /** What the other holds of the user leave of one source. */
  function Left(l: Ledger, user: nat, source: Source, balance: int): int {
    Max(balance - Allocated(l.charges, user, Reserved, source), 0)
  }

  function PaidIds(slots: seq<Slot>): seq<nat>
    requires forall i :: 0 <= i < |slots| ==> slots[i].source.Paid?
  {
    seq(|slots|, i requires 0 <= i < |slots| => slots[i].source.entitlement)
  }

  /** The list in two parts: the free balance, and one slot for each spendable entitlement. */
  lemma SlotsShape(l: Ledger, user: nat, now: int)
    requires user in l.accounts
    ensures var slots, a := Slots(l, user, now), l.accounts[user];
      && |slots| > 0 && slots[0] == Slot(Free(a.period), Left(l, user, Free(a.period), a.free))
      && (forall i :: 1 <= i < |slots| ==> slots[i].source.Paid?)
      && PaidIds(slots[1..]) == Ordered(l.entitlements, Spendable(l, user, now))
  {
    hide Allocated, Ordered;
  }

  lemma SlotAvailable(l: Ledger, user: nat, now: int, i: nat)
    requires user in l.accounts && 1 <= i < |Slots(l, user, now)|
    ensures var slot := Slots(l, user, now)[i];
      && slot.source.Paid? && Unspent(l, user, now, slot.source.entitlement)
      && slot.available == Left(l, user, slot.source, l.entitlements[slot.source.entitlement].remaining)
  {
    hide Allocated, Ordered;
    OrderedListsAll(l.entitlements, Spendable(l, user, now));
    assert Ordered(l.entitlements, Spendable(l, user, now))[i - 1] in Spendable(l, user, now);
  }

  /**
   The planner's list: the free balance first, then exactly the entitlements of the user
   that are unexpired and not used up, earliest expiry first, each with what other holds leave of it.
   */
  lemma SourcesInOrder(l: Ledger, user: nat, now: int)
    requires user in l.accounts
    ensures var slots, a := Slots(l, user, now), l.accounts[user];
      && |slots| > 0 && slots[0] == Slot(Free(a.period), Left(l, user, Free(a.period), a.free))
      && (forall i :: 1 <= i < |slots| ==>
            && slots[i].source.Paid? && Unspent(l, user, now, slots[i].source.entitlement)
            && slots[i].available ==
                 Left(l, user, slots[i].source, l.entitlements[slots[i].source.entitlement].remaining))
      && (forall id :: Unspent(l, user, now, id) ==> id in PaidIds(slots[1..]))
      && SortedByExpiry(l.entitlements, PaidIds(slots[1..]))
  {
    var spendable := Spendable(l, user, now);
    OrderedListsAll(l.entitlements, spendable);
    OrderedIsSorted(l.entitlements, spendable);
    SlotsShape(l, user, now);
    forall id | Unspent(l, user, now, id) ensures id in Ordered(l.entitlements, spendable) {
      assert id in spendable;
    }
    hide Slots, Ordered, Left, SortedByExpiry;
    forall i | 1 <= i < |Slots(l, user, now)|
      ensures var slot := Slots(l, user, now)[i];
        && slot.source.Paid? && Unspent(l, user, now, slot.source.entitlement)
        && slot.available == Left(l, user, slot.source, l.entitlements[slot.source.entitlement].remaining)
    {
      SlotAvailable(l, user, now, i);
    }
  }

  // ---------- holds ----------

  lemma ReservePlan(l: Ledger, upload: nat, user: nat, required: nat, initial: int, now: int)
    requires Reserve(l, upload, user, required, initial, now).Ok?
    ensures var ready, l' := EnsureAccount(l, user, initial), Reserve(l, upload, user, required, initial, now).value;
      && upload in l'.charges
      && PlanFor(Slots(ready, user, now), LegacyReserved(ready, user), required)
           == Covered(l'.charges[upload].allocations)
  {
    hide Slots, LegacyReserved, PlanFor;
  }

  /** A hold is a new reserved charge of the whole requirement; the counter grows by it and no balance moves. */
  lemma ReserveHoldsAll(l: Ledger, upload: nat, user: nat, required: nat, initial: int, now: int)
    requires Reserve(l, upload, user, required, initial, now).Ok?
    ensures var ready, l' := EnsureAccount(l, user, initial), Reserve(l, upload, user, required, initial, now).value;
      && upload !in l.charges && upload in l'.charges && l'.charges - {upload} == l.charges
      && (var c := l'.charges[upload];
          c.user == user && c.amount == required == AllocTotal(c.allocations) && c.status == Reserved)
      && user in ready.accounts
      && (var a := ready.accounts[user];
          l'.accounts == ready.accounts[user := a.(reserved := a.reserved + required)])
      && l'.entitlements == l.entitlements && l'.legacy == l.legacy
  {
    hide Slots, LegacyReserved, PlanFor, AllocTotal, Capacity;
    var ready, l' := EnsureAccount(l, user, initial), Reserve(l, upload, user, required, initial, now).value;
    assert l'.charges - {upload} == l.charges;
    ReservePlan(l, upload, user, required, initial, now);
    PlanSucceedsExactly(Slots(ready, user, now), LegacyReserved(ready, user), required);
  }

  /** For every k, the first k sources give as much of the hold as they have: the list is drained in order. */
  lemma ReserveTakesInOrder(l: Ledger, upload: nat, user: nat, required: nat, initial: int, now: int, k: nat)
    requires Reserve(l, upload, user, required, initial, now).Ok?
    requires k <= |Slots(EnsureAccount(l, user, initial), user, now)|
    ensures var ready, l' := EnsureAccount(l, user, initial), Reserve(l, upload, user, required, initial, now).value;
      var slots, legacy := Slots(ready, user, now), LegacyReserved(ready, user);
      && upload in l'.charges
      && Taken(slots[..k], l'.charges[upload].allocations) == Min(required, Capacity(slots[..k], legacy))
  {
    hide Reserve, Slots, LegacyReserved, PlanFor, Capacity, Taken;
    var ready := EnsureAccount(l, user, initial);
    ReservePlan(l, upload, user, required, initial, now);
    SlotFacts(ready, user, now);
    PlanDrainsInOrder(Slots(ready, user, now), LegacyReserved(ready, user), required, k);
  }

  /** Settling takes from every source what the charge allocated on it, and from nothing else. */
  lemma SettleSpends(l: Ledger, upload: nat, v: nat, source: Source)
    requires Inv(l) && upload in l.charges && l.charges[upload].status == Reserved
    ensures Settle(l, upload).Ok?
    ensures var c, l' := l.charges[upload], Settle(l, upload).value;
      && Balance(l', v, source) == Balance(l, v, source) - (if v == c.user then AllocOn(c.allocations, source) else 0)
      && l'.charges == l.charges[upload := c.(status := Settled)] && l'.legacy == l.legacy
      && l'.accounts.Keys == l.accounts.Keys && l'.entitlements.Keys == l.entitlements.Keys
      && (v in l.accounts ==>
            l'.accounts[v].reserved == l.accounts[v].reserved - if v == c.user then c.amount else 0)
  {
    hide Allocated, Promised, LegacyHeld, AllocOn, Solvent, Conserved, Counted, HoldsHaveAccounts;
    ResolvingNeverRejected(l, upload);
    var c := l.charges[upload];
    assert WellFormed(l, c);
    if v == c.user && !SourceOf(l, v, source) {
      AllocOnAbsent(c.allocations, source);
    }
  }

  /** A refund gives the hold back without touching any balance. */
  lemma RefundReleases(l: Ledger, upload: nat, v: nat)
    requires Inv(l) && upload in l.charges && l.charges[upload].status == Reserved
    ensures Refund(l, upload).Ok?
    ensures var c, l' := l.charges[upload], Refund(l, upload).value;
      && l'.charges == l.charges[upload := c.(status := Refunded)] && l'.legacy == l.legacy
      && l'.entitlements == l.entitlements && l'.accounts.Keys == l.accounts.Keys
      && (v in l.accounts ==>
            var a := l.accounts[v];
            l'.accounts[v] == a.(reserved := a.reserved - if v == c.user then c.amount else 0))
  {
    hide Allocated, Promised, LegacyHeld, AllocOn, Solvent, Conserved, Counted, HoldsHaveAccounts;
    ResolvingNeverRejected(l, upload);
  }

  /** Giving a hold back restores exactly what the account page showed before it was taken. */
  lemma RefundUndoesReserve(l: Ledger, upload: nat, user: nat, required: nat, initial: int, now: int)
    requires Inv(l) && Reserve(l, upload, user, required, initial, now).Ok?
    ensures var held := Reserve(l, upload, user, required, initial, now).value;
      && Refund(held, upload).Ok?
      && Refund(held, upload).value.accounts == EnsureAccount(l, user, initial).accounts
      && Refund(held, upload).value.entitlements == l.entitlements
  {
    hide Inv, Reserve, Refund, EnsureAccount, AllocTotal;
    var held := Reserve(l, upload, user, required, initial, now).value;
    ReserveKeeps(l, upload, user, required, initial, now);
    ReserveHoldsAll(l, upload, user, required, initial, now);
    RefundReleases(held, upload, user);
    var before, after := EnsureAccount(l, user, initial), Refund(held, upload).value;
    forall v | v in held.accounts ensures v in before.accounts && after.accounts[v] == before.accounts[v] {
      RefundReleases(held, upload, v);
    }
    assert after.accounts == before.accounts;
  }

  // ---------- grants ----------

  /** A grant raises what its user is shown by its bytes while it has not expired, and nobody else's. */
  lemma GrantRaisesSummary(l: Ledger, id: nat, user: nat, bytes: nat, expires: int, origin: Origin, v: nat, now: int)
    requires Grant(l, id, user, bytes, expires, origin).Ok? && v in l.accounts
    ensures var l' := Grant(l, id, user, bytes, expires, origin).value;
      && l'.accounts == l.accounts && l'.charges == l.charges
      && Shown(l', v, now) == Shown(l, v, now) + if v == user && expires > now then bytes else 0
  {
    var l' := Grant(l, id, user, bytes, expires, origin).value;
    assert l'.entitlements.Keys - {id} == l.entitlements.Keys - {id};
    SumChange(l.entitlements.Keys, PaidAt(l, v, now), l'.entitlements.Keys, PaidAt(l', v, now), id);
  }

  /** Revoking an order takes back its own entitlements, unspent and unheld, and no others. */
  lemma RevokeTakesOnlyItsOwn(l: Ledger, order: nat)
    requires RevokeOrder(l, order).Ok?
    ensures var l' := RevokeOrder(l, order).value;
      && l'.accounts == l.accounts && l'.charges == l.charges && l'.legacy == l.legacy
      && (forall id :: id in l'.entitlements <==> id in l.entitlements && l.entitlements[id].origin != FromOrder(order))
      && (forall id :: id in l'.entitlements ==> l'.entitlements[id] == l.entitlements[id])
      && (forall id :: id in l.entitlements && l.entitlements[id].origin == FromOrder(order) ==>
            l.entitlements[id].remaining == l.entitlements[id].amount)
  {
    hide Names;
    var l' := RevokeOrder(l, order).value;
  }

  /** Retiring a legacy hold frees exactly its bytes. */
  lemma ReleaseLegacyFrees(l: Ledger, reservation: nat)
    requires Inv(l) && reservation in l.legacy
    ensures var h, l' := l.legacy[reservation], ReleaseLegacy(l, reservation);
      && h.user in l.accounts && l'.legacy == l.legacy - {reservation}
      && l'.accounts == l.accounts[h.user := l.accounts[h.user].(reserved := l.accounts[h.user].reserved - h.bytes)]
      && l'.charges == l.charges && l'.entitlements == l.entitlements
  {
    hide Allocated, Promised, LegacyHeld, Solvent, Conserved;
    PromisedBounds(l, l.legacy[reservation].user);
  }

  /** A new account is granted the initial bytes by its first upload, however it was opened. */
  lemma NewAccountsStartEqual(l: Ledger, user: nat, initial: int)
    requires user !in l.accounts
    ensures EnsureAccount(OpenAccount(l, user), user, initial) == EnsureAccount(l, user, initial)
    ensures EnsureAccount(l, user, initial).accounts == l.accounts[user := Account(Max(initial, 0), Permanent, 0)]
  {
    assert OpenAccount(l, user).accounts[user := Account(Max(initial, 0), Permanent, 0)]
        == l.accounts[user := Account(Max(initial, 0), Permanent, 0)];
  }

  /** Conversion keeps an old balance; only an account that never had a period and holds nothing is granted. */
  lemma OldAccountsKeepTheirBalance(l: Ledger, user: nat, initial: int)
    requires user in l.accounts
    ensures var a, l' := l.accounts[user], EnsureAccount(l, user, initial);
      && l' == l.(accounts := l.accounts[user := l'.accounts[user]]) && l'.accounts[user].period == Permanent
      && l'.accounts[user].reserved == a.reserved
      && l'.accounts[user].free == (if a.period == Unset && a.free == 0 then Max(initial, 0) else a.free)
  {
    assert l.accounts[user := l.accounts[user]] == l.accounts;
  }

  /** The source exists for this user and holds these bytes; free bytes only in the account's own period. */
  predicate Affordable(l: Ledger, user: nat, source: Source, bytes: int) {
    match source
    case Free(period) => user in l.accounts && l.accounts[user].period == period && l.accounts[user].free >= bytes
    case Paid(id) => id in l.entitlements && l.entitlements[id].user == user && l.entitlements[id].remaining >= bytes
  }

  predicate Positive(allocations: seq<Allocation>) {
    forall i :: 0 <= i < |allocations| ==> allocations[i].amount > 0
  }

  ghost predicate AllAffordable(l: Ledger, c: Charge) {
    forall source :: AllocOn(c.allocations, source) > 0 ==>
      Affordable(l, c.user, source, AllocOn(c.allocations, source))
  }

  lemma PayableExactly(l: Ledger, c: Charge)
    requires Positive(c.allocations)
    ensures Payable(l, c) <==> AllAffordable(l, c)
  {
    hide AllocOn;
    forall source
      ensures AllocOn(c.allocations, source) > 0 <==>
        exists i :: 0 <= i < |c.allocations| && c.allocations[i].source == source
    {
      NamedExactly(c.allocations, source);
    }
    if AllAffordable(l, c) {
      forall i | 0 <= i < |c.allocations|
        ensures Affordable(l, c.user, c.allocations[i].source, AllocOn(c.allocations, c.allocations[i].source))
      {
        assert AllocOn(c.allocations, c.allocations[i].source) > 0;
      }
    }
  }

  /**
   In any ledger, sound or not, a reserved charge settles exactly when it adds up, the
   counter covers it, and every source can pay its part.
   */
  lemma SettleSucceedsExactly(l: Ledger, upload: nat)
    requires upload in l.charges && l.charges[upload].status == Reserved && Positive(l.charges[upload].allocations)
    ensures var c := l.charges[upload];
      Settle(l, upload).Ok? <==>
        && AllocTotal(c.allocations) == c.amount && c.user in l.accounts && l.accounts[c.user].reserved >= c.amount
        && AllAffordable(l, c)
  {
    hide AllocOn, AllocTotal, Obstacle, Payable, AllAffordable, Debit;
    PayableExactly(l, l.charges[upload]);
  }

  lemma NamedExactly(allocations: seq<Allocation>, source: Source)
    requires Positive(allocations)
    ensures AllocOn(allocations, source) > 0 <==>
      exists i :: 0 <= i < |allocations| && allocations[i].source == source
  {
    if i: nat :| i < |allocations| && allocations[i].source == source {
      AllocOnPresent(allocations, i);
    } else {
      AllocOnAbsent(allocations, source);
    }
  }
}
