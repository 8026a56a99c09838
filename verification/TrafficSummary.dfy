/**
 The remaining traffic shown in the account summary against the capacity the
 upload planner really has.
 */
module TrafficSummary {
  import opened Basics
  import opened Sums
  import opened TrafficPlanner
  import opened TrafficLedger
  import opened TrafficSafety

  predicate Mine(l: Ledger, user: nat, id: nat) {
    id in l.entitlements && l.entitlements[id].user == user
  }

  predicate Current(l: Ledger, user: nat, now: int, id: nat) {
    Mine(l, user, id) && l.entitlements[id].expires > now
  }

  function PaidAt(l: Ledger, user: nat, now: int): nat -> int {
    (id: nat) => if Current(l, user, now, id) then l.entitlements[id].remaining else 0
  }

  /** Unexpired paid bytes, held or not. */
  function PaidTraffic(l: Ledger, user: nat, now: int): int {
    Sum(l.entitlements.Keys, PaidAt(l, user, now))
  }

  /** What the account page shows before clamping at zero. */
  function Shown(l: Ledger, user: nat, now: int): int
    requires user in l.accounts
  {
    l.accounts[user].free + PaidTraffic(l, user, now) - l.accounts[user].reserved
  }

  function SummaryRemaining(l: Ledger, user: nat, now: int): nat
    requires user in l.accounts
  {
    Max(Shown(l, user, now), 0)
  }

  function ExpiredAt(l: Ledger, user: nat, now: int): nat -> int {
    (id: nat) => if Mine(l, user, id) && !Current(l, user, now, id) then Allocated(l.charges, user, Reserved, Paid(id))
      else 0
  }

  /** Bytes held on entitlements that have expired since the hold was taken. */
  function ExpiredHeld(l: Ledger, user: nat, now: int): int {
    Sum(l.entitlements.Keys, ExpiredAt(l, user, now))
  }

  function PlannerCapacity(l: Ledger, user: nat, now: int): nat
    requires user in l.accounts
  {
    Capacity(Slots(l, user, now), LegacyReserved(l, user))
  }

  // ---------- the planner's side ----------

  function AvailableAt(l: Ledger, user: nat): nat -> int {
    (id: nat) => SlotOf(l, user, Paid(id)).available
  }

  function PaidSlots(l: Ledger, user: nat, ids: seq<nat>): seq<Slot> {
    seq(|ids|, i requires 0 <= i < |ids| => SlotOf(l, user, Paid(ids[i])))
  }

  lemma {:induction false} OrderedTotal(l: Ledger, user: nat, ids: set<nat>)
    requires ids <= l.entitlements.Keys
    ensures Total(PaidSlots(l, user, Ordered(l.entitlements, ids))) == Sum(ids, AvailableAt(l, user))
    decreases ids
  {
    hide Allocated, SlotOf;
    if ids != {} {
      var all := Ordered(l.entitlements, ids);
      var m := all[0];
      assert all == [m] + Ordered(l.entitlements, ids - {m});
      assert PaidSlots(l, user, all)[1..] == PaidSlots(l, user, all[1..]);
      OrderedTotal(l, user, ids - {m});
      SumExtract(ids, m, AvailableAt(l, user));
    }
  }

  function UnheldAt(l: Ledger, user: nat, now: int): nat -> int {
    (id: nat) => if Current(l, user, now, id)
      then l.entitlements[id].remaining - Allocated(l.charges, user, Reserved, Paid(id)) else 0
  }

  lemma SlotsTotal(l: Ledger, user: nat, now: int)
    requires Solvent(l) && user in l.accounts && l.accounts[user].period == Permanent
    ensures Total(Slots(l, user, now)) == l.accounts[user].free - Allocated(l.charges, user, Reserved, Free(Permanent))
                                        + Sum(l.entitlements.Keys, UnheldAt(l, user, now))
  {
    hide Allocated, Total;
    var ids := Spendable(l, user, now);
    OrderedTotal(l, user, ids);
    var slots := Slots(l, user, now);
    assert slots[1..] == PaidSlots(l, user, Ordered(l.entitlements, ids));
    TotalHead(slots);
    assert Allocated(l.charges, user, Reserved, Free(Permanent)) <= Balance(l, user, Free(Permanent));
    forall id | id in l.entitlements
      ensures id in ids ==> AvailableAt(l, user)(id) == UnheldAt(l, user, now)(id)
      ensures id !in ids ==> UnheldAt(l, user, now)(id) == 0
    {
      assert Allocated(l.charges, user, Reserved, Paid(id)) <= Balance(l, user, Paid(id));
      AllocatedBounds(l.charges, user, Reserved, Paid(id));
    }
    SumSubset(l.entitlements.Keys, ids, AvailableAt(l, user), UnheldAt(l, user, now));
  }

  lemma TotalHead(slots: seq<Slot>)
    requires slots != []
    ensures Total(slots) == slots[0].available + Total(slots[1..])
  {
  }

  // ---------- the holds, by charge and by source ----------

  function OnPaidAt(l: Ledger, user: nat, allocations: seq<Allocation>): nat -> int {
    (id: nat) => if Mine(l, user, id) then AllocOn(allocations, Paid(id)) else 0
  }

  predicate NamesOwnSources(l: Ledger, user: nat, allocations: seq<Allocation>) {
    forall i :: 0 <= i < |allocations| ==> SourceOf(l, user, allocations[i].source)
  }

  /** One charge, split by source, adds up to its total. */
  lemma {:induction false} TotalBySource(l: Ledger, user: nat, allocations: seq<Allocation>)
    requires NamesOwnSources(l, user, allocations)
    ensures AllocTotal(allocations)
      == AllocOn(allocations, Free(Permanent)) + Sum(l.entitlements.Keys, OnPaidAt(l, user, allocations))
    decreases allocations
  {
    hide Sum;
    var all := l.entitlements.Keys;
    if allocations == [] {
      SumZero(all, OnPaidAt(l, user, allocations));
    } else {
      var first, rest := allocations[0], allocations[1..];
      TotalBySource(l, user, rest);
      var one := OnPaidAt(l, user, [first]);
      forall id | id in all ensures OnPaidAt(l, user, allocations)(id) == one(id) + OnPaidAt(l, user, rest)(id) {
        assert allocations == [first] + rest;
        AllocOnSplit([first], rest, Paid(id));
      }
      SumPlus(all, one, OnPaidAt(l, user, rest), OnPaidAt(l, user, allocations));
      if first.source.Paid? {
        assert [first][1..] == [];
        SumSingle(all, first.source.entitlement, one);
      } else {
        SumZero(all, one);
      }
    }
  }

  /** Holds on one entitlement by the charges in `s`. */
  function HeldWithin(l: Ledger, user: nat, s: set<nat>): nat -> int {
    (id: nat) => if Mine(l, user, id) then Sum(s, AllocatedAt(l.charges, user, Reserved, Paid(id))) else 0
  }

  lemma {:induction false} HoldsBySource(l: Ledger, user: nat, s: set<nat>)
    requires ChargesWellFormed(l) && s <= l.charges.Keys
    ensures Sum(s, SnapshotAt(l.charges, user))
         == Sum(s, AllocatedAt(l.charges, user, Reserved, Free(Permanent)))
            + Sum(l.entitlements.Keys, HeldWithin(l, user, s))
    decreases s
  {
    var all := l.entitlements.Keys;
    if s == {} {
      SumZero(all, HeldWithin(l, user, s));
    } else {
      var k := Least(s);
      var rest := s - {k};
      HoldsBySource(l, user, rest);
      var mine := l.charges[k].status == Reserved && l.charges[k].user == user;
      var allocations := if mine then l.charges[k].allocations else [];
      var one := OnPaidAt(l, user, allocations);
      if mine {
        assert WellFormed(l, l.charges[k]);
      }
      TotalBySource(l, user, allocations);
      HeldStep(l, user, s, k, allocations);
      SumPlus(all, one, HeldWithin(l, user, rest), HeldWithin(l, user, s));
    }
  }

  lemma HeldStep(l: Ledger, user: nat, s: set<nat>, k: nat, allocations: seq<Allocation>)
    requires s <= l.charges.Keys && k in s
    requires allocations == if l.charges[k].status == Reserved
      && l.charges[k].user == user then l.charges[k].allocations else []
    ensures forall id :: id in l.entitlements ==>
      HeldWithin(l, user, s)(id) == OnPaidAt(l, user, allocations)(id) + HeldWithin(l, user, s - {k})(id)
  {
    hide Sum;
    forall id | id in l.entitlements
      ensures HeldWithin(l, user, s)(id) == OnPaidAt(l, user, allocations)(id) + HeldWithin(l, user, s - {k})(id)
    {
      SumExtract(s, k, AllocatedAt(l.charges, user, Reserved, Paid(id)));
    }
  }

  lemma SnapshotIsPromise(l: Ledger, user: nat)
    requires ChargesWellFormed(l)
    ensures Snapshotted(l.charges, user) == Promised(l.charges, user)
  {
    forall u | u in l.charges ensures SnapshotAt(l.charges, user)(u) == PromisedAt(l.charges, user)(u) {
      if Live(l.charges[u]) {
        assert WellFormed(l, l.charges[u]);
      }
    }
    SumCongruent(l.charges.Keys, SnapshotAt(l.charges, user), PromisedAt(l.charges, user));
  }

  function CurrentHeldAt(l: Ledger, user: nat, now: int): nat -> int {
    (id: nat) => if Current(l, user, now, id) then Allocated(l.charges, user, Reserved, Paid(id)) else 0
  }

  /** Every held byte rests on the free balance, a current entitlement or an expired one. */
  lemma HoldsByAge(l: Ledger, user: nat, now: int)
    requires ChargesWellFormed(l)
    ensures Promised(l.charges, user) == Allocated(l.charges, user, Reserved, Free(Permanent))
          + Sum(l.entitlements.Keys, CurrentHeldAt(l, user, now)) + ExpiredHeld(l, user, now)
    ensures Sum(l.entitlements.Keys, UnheldAt(l, user, now))
      == PaidTraffic(l, user, now) - Sum(l.entitlements.Keys, CurrentHeldAt(l, user, now))
  {
    hide Sum;
    var all := l.entitlements.Keys;
    SnapshotIsPromise(l, user);
    HoldsBySource(l, user, l.charges.Keys);
    SumPlus(all, CurrentHeldAt(l, user, now), ExpiredAt(l, user, now), HeldWithin(l, user, l.charges.Keys));
    SumPlus(all, CurrentHeldAt(l, user, now), UnheldAt(l, user, now), PaidAt(l, user, now));
  }

  /**
   The planner can spend what the summary shows plus whatever is held on expired
   entitlements: such a hold still counts against the account but no longer
   against a source the planner would use.
   */
  lemma CapacityAgainstSummary(l: Ledger, user: nat, now: int)
    requires Inv(l) && user in l.accounts && l.accounts[user].period == Permanent
    ensures PlannerCapacity(l, user, now) == Max(Shown(l, user, now) + ExpiredHeld(l, user, now), 0)
    ensures ExpiredHeld(l, user, now) >= 0
    ensures PlannerCapacity(l, user, now) >= SummaryRemaining(l, user, now)
    ensures PlannerCapacity(l, user, now) == SummaryRemaining(l, user, now)
       <==> ExpiredHeld(l, user, now) == 0 || Shown(l, user, now) + ExpiredHeld(l, user, now) <= 0
  {
    hide Allocated, Promised, LegacyHeld, Sum, Slots, Total, Solvent, ChargesWellFormed;
    SlotsTotal(l, user, now);
    HoldsByAge(l, user, now);
    SnapshotIsPromise(l, user);
    PromisedBounds(l, user);
    ExpiredNonNegative(l, user, now);
  }

  lemma ExpiredNonNegative(l: Ledger, user: nat, now: int)
    ensures ExpiredHeld(l, user, now) >= 0
  {
    hide Sum, Allocated;
    forall id | id in l.entitlements ensures ExpiredAt(l, user, now)(id) >= 0 {
      AllocatedBounds(l.charges, user, Reserved, Paid(id));
    }
    SumNonNegative(l.entitlements.Keys, ExpiredAt(l, user, now));
  }

  /** An upload is admitted exactly when it fits that capacity. */
  lemma ReserveSucceedsExactly(l: Ledger, upload: nat, user: nat, required: nat, initial: int, now: int)
    requires upload !in l.charges
    ensures Reserve(l, upload, user, required, initial, now).Ok?
       <==> required <= PlannerCapacity(EnsureAccount(l, user, initial), user, now)
  {
    hide Slots, LegacyReserved, Capacity;
    var ready := EnsureAccount(l, user, initial);
    PlanSucceedsExactly(Slots(ready, user, now), LegacyReserved(ready, user), required);
  }
}
