/**
 The upload traffic planner: which sources pay for an upload, and how much each.
 Sources are drained in order, after any legacy hold has taken its share of the
 same sources from the front.
 */
module TrafficPlanner {
  import opened Sums

  /** The billing period stored on an account; new accounts start unset. */
  datatype Period = Unset | Monthly(month: nat) | Permanent

  datatype Source = Free(period: Period) | Paid(entitlement: nat)

  datatype Slot = Slot(source: Source, available: nat)

  datatype Allocation = Allocation(source: Source, amount: nat)

  function Total(slots: seq<Slot>): nat {
    if slots == [] then 0 else slots[0].available + Total(slots[1..])
  }

  function AllocTotal(allocations: seq<Allocation>): nat {
    if allocations == [] then 0 else allocations[0].amount + AllocTotal(allocations[1..])
  }

  function AllocOn(allocations: seq<Allocation>, source: Source): nat {
    if allocations == [] then 0 else
      (if allocations[0].source == source then allocations[0].amount else 0) + AllocOn(allocations[1..], source)
  }

  predicate Distinct(slots: seq<Slot>) {
    forall i, j :: 0 <= i < j < |slots| ==> slots[i].source != slots[j].source
  }

  /** Bytes that `allocations` takes from the sources of `slots`. */
  function Taken(slots: seq<Slot>, allocations: seq<Allocation>): nat {
    if slots == [] then 0 else AllocOn(allocations, slots[0].source) + Taken(slots[1..], allocations)
  }

  /** What `legacy` reserved bytes leave of each slot, front slots paying first. */
  function AfterLegacy(slots: seq<Slot>, legacy: nat): seq<Slot> {
    if slots == [] then [] else
      var used := Min(slots[0].available, legacy);
      [slots[0].(available := slots[0].available - used)] + AfterLegacy(slots[1..], legacy - used)
  }

  function Piece(source: Source, amount: nat): seq<Allocation> {
    if amount > 0 then [Allocation(source, amount)] else []
  }

  function Fill(slots: seq<Slot>, remaining: nat): seq<Allocation> {
    if slots == [] || remaining == 0 then [] else
      var amount := Min(slots[0].available, remaining);
      Piece(slots[0].source, amount) + Fill(slots[1..], remaining - amount)
  }

  datatype Plan = Covered(allocations: seq<Allocation>) | Exceeded

  function PlanFor(slots: seq<Slot>, legacy: nat, required: nat): Plan {
    var allocations := Fill(AfterLegacy(slots, legacy), required);
    if AllocTotal(allocations) == required then Covered(allocations) else Exceeded
  }

  /** What a caller can still spend: everything available beyond the legacy hold. */
  function Capacity(slots: seq<Slot>, legacy: nat): nat {
    Max(Total(slots) - legacy, 0)
  }

  lemma {:induction false} AllocTotalSplit(a: seq<Allocation>, b: seq<Allocation>)
    ensures AllocTotal(a + b) == AllocTotal(a) + AllocTotal(b)
    decreases a
  {
    if a == [] {
      assert a + b == b;
    } else {
      assert (a + b)[1..] == a[1..] + b;
      AllocTotalSplit(a[1..], b);
    }
  }

  lemma {:induction false} AllocOnSplit(a: seq<Allocation>, b: seq<Allocation>, source: Source)
    ensures AllocOn(a + b, source) == AllocOn(a, source) + AllocOn(b, source)
    decreases a
  {
    if a == [] {
      assert a + b == b;
    } else {
      assert (a + b)[1..] == a[1..] + b;
      AllocOnSplit(a[1..], b, source);
    }
  }

  lemma {:induction false} AllocOnAbsent(allocations: seq<Allocation>, source: Source)
    requires forall i :: 0 <= i < |allocations| ==> allocations[i].source != source
    ensures AllocOn(allocations, source) == 0
    decreases allocations
  {
    if allocations != [] {
      AllocOnAbsent(allocations[1..], source);
    }
  }

  lemma {:induction false} AllocOnPresent(allocations: seq<Allocation>, i: nat)
    requires i < |allocations|
    ensures AllocOn(allocations, allocations[i].source) >= allocations[i].amount
    decreases allocations
  {
    if i > 0 {
      AllocOnPresent(allocations[1..], i - 1);
    }
  }

  lemma {:induction false} AllocOnPrefix(allocations: seq<Allocation>, i: nat, source: Source)
    requires i < |allocations|
    ensures AllocOn(allocations[..i + 1], source)
      == AllocOn(allocations[..i], source) + (if allocations[i].source == source then allocations[i].amount else 0)
    ensures AllocOn(allocations[..i + 1], source) <= AllocOn(allocations, source)
  {
    assert allocations[..i + 1] == allocations[..i] + [allocations[i]];
    AllocOnSplit(allocations[..i], [allocations[i]], source);
    assert allocations == allocations[..i + 1] + allocations[i + 1..];
    AllocOnSplit(allocations[..i + 1], allocations[i + 1..], source);
  }

  lemma {:induction false} AfterLegacyShape(slots: seq<Slot>, legacy: nat)
    ensures |AfterLegacy(slots, legacy)| == |slots|
    ensures forall i :: 0 <= i < |slots| ==>
      AfterLegacy(slots, legacy)[i].source == slots[i].source
        && AfterLegacy(slots, legacy)[i].available <= slots[i].available
    decreases slots
  {
    if slots != [] {
      AfterLegacyShape(slots[1..], legacy - Min(slots[0].available, legacy));
    }
  }

  lemma {:induction false} AfterLegacyTotal(slots: seq<Slot>, legacy: nat)
    ensures Total(AfterLegacy(slots, legacy)) == Capacity(slots, legacy)
    decreases slots
  {
    if slots != [] {
      var used := Min(slots[0].available, legacy);
      AfterLegacyTotal(slots[1..], legacy - used);
      assert AfterLegacy(slots, legacy)[1..] == AfterLegacy(slots[1..], legacy - used);
    }
  }

  lemma {:induction false} AfterLegacyPrefix(slots: seq<Slot>, legacy: nat, k: nat)
    requires k <= |slots|
    ensures |AfterLegacy(slots, legacy)| == |slots|
    ensures AfterLegacy(slots, legacy)[..k] == AfterLegacy(slots[..k], legacy)
    decreases slots
  {
    AfterLegacyShape(slots, legacy);
    if k > 0 {
      var used := Min(slots[0].available, legacy);
      AfterLegacyPrefix(slots[1..], legacy - used, k - 1);
      assert slots[..k][1..] == slots[1..][..k - 1];
    }
  }

  lemma {:induction false} FillTotal(slots: seq<Slot>, remaining: nat)
    ensures AllocTotal(Fill(slots, remaining)) == Min(remaining, Total(slots))
    decreases slots
  {
    if slots != [] && remaining > 0 {
      var amount := Min(slots[0].available, remaining);
      FillTotal(slots[1..], remaining - amount);
      AllocTotalSplit(Piece(slots[0].source, amount), Fill(slots[1..], remaining - amount));
    }
  }

  /** `Fill` only names sources it was given, and never takes more than one holds. */
  lemma {:induction false} FillSources(slots: seq<Slot>, remaining: nat)
    ensures forall i :: 0 <= i < |Fill(slots, remaining)| ==>
      Fill(slots, remaining)[i].amount > 0 &&
      exists j :: 0 <= j < |slots| && slots[j].source == Fill(slots, remaining)[i].source
    decreases slots
  {
    if slots != [] && remaining > 0 {
      var amount := Min(slots[0].available, remaining);
      var tail := Fill(slots[1..], remaining - amount);
      FillSources(slots[1..], remaining - amount);
      var head := Piece(slots[0].source, amount);
      var all := Fill(slots, remaining);
      assert all == head + tail;
      forall i | 0 <= i < |all|
        ensures all[i].amount > 0 && exists j :: 0 <= j < |slots| && slots[j].source == all[i].source
      {
        if i < |head| {
          assert slots[0].source == all[i].source;
        } else {
          var j :| 0 <= j < |slots[1..]| && slots[1..][j].source == tail[i - |head|].source;
          assert slots[j + 1].source == all[i].source;
        }
      }
    }
  }

  lemma FillAbsent(slots: seq<Slot>, remaining: nat, source: Source)
    requires forall j :: 0 <= j < |slots| ==> slots[j].source != source
    ensures AllocOn(Fill(slots, remaining), source) == 0
  {
    FillSources(slots, remaining);
    AllocOnAbsent(Fill(slots, remaining), source);
  }

  lemma {:induction false} FillBounded(slots: seq<Slot>, remaining: nat, k: nat)
    requires Distinct(slots) && k < |slots|
    ensures AllocOn(Fill(slots, remaining), slots[k].source) <= slots[k].available
    decreases slots
  {
    if remaining > 0 {
      var amount := Min(slots[0].available, remaining);
      var head := Piece(slots[0].source, amount);
      AllocOnSplit(head, Fill(slots[1..], remaining - amount), slots[k].source);
      if k == 0 {
        FillAbsent(slots[1..], remaining - amount, slots[0].source);
      } else {
        FillBounded(slots[1..], remaining - amount, k - 1);
      }
    }
  }

  /** Bytes taken from the first `k` sources are as many as those sources can give. */
  lemma {:induction false} FillPrefix(slots: seq<Slot>, remaining: nat, k: nat)
    requires Distinct(slots) && k <= |slots|
    ensures Taken(slots[..k], Fill(slots, remaining)) == Min(remaining, Total(slots[..k]))
    decreases slots
  {
    if k == 0 || remaining == 0 {
      TakenNothing(slots[..k]);
    } else {
      var amount := Min(slots[0].available, remaining);
      FillStep(slots, remaining);
      FillPrefix(slots[1..], remaining - amount, k - 1);
      hide Fill, AllocOn;
      assert slots[..k][1..] == slots[1..][..k - 1];
      TakenSplit(slots[1..][..k - 1], Piece(slots[0].source, amount), Fill(slots[1..], remaining - amount));
    }
  }

  /** The first source gives what it has, up to what is needed; the rest cover the rest. */
  lemma FillStep(slots: seq<Slot>, remaining: nat)
    requires slots != [] && remaining > 0
    ensures var amount := Min(slots[0].available, remaining);
      && Fill(slots, remaining) == Piece(slots[0].source, amount) + Fill(slots[1..], remaining - amount)
      && (Distinct(slots) ==> AllocOn(Fill(slots, remaining), slots[0].source) == amount)
  {
    var amount := Min(slots[0].available, remaining);
    AllocOnSplit(Piece(slots[0].source, amount), Fill(slots[1..], remaining - amount), slots[0].source);
    if Distinct(slots) {
      FillAbsent(slots[1..], remaining - amount, slots[0].source);
    }
  }

  lemma {:induction false} TakenNothing(slots: seq<Slot>)
    ensures Taken(slots, []) == 0
    decreases slots
  {
    if slots != [] {
      TakenNothing(slots[1..]);
    }
  }

  lemma {:induction false} TakenSplit(slots: seq<Slot>, head: seq<Allocation>, tail: seq<Allocation>)
    requires forall i, j :: 0 <= i < |slots| && 0 <= j < |head| ==> slots[i].source != head[j].source
    ensures Taken(slots, head + tail) == Taken(slots, tail)
    decreases slots
  {
    if slots != [] {
      AllocOnSplit(head, tail, slots[0].source);
      AllocOnAbsent(head, slots[0].source);
      TakenSplit(slots[1..], head, tail);
    }
  }

  /** The planner succeeds exactly when the required bytes fit the capacity. */
  lemma PlanSucceedsExactly(slots: seq<Slot>, legacy: nat, required: nat)
    ensures PlanFor(slots, legacy, required).Covered? <==> required <= Capacity(slots, legacy)
    ensures PlanFor(slots, legacy, required).Covered? ==>
      AllocTotal(PlanFor(slots, legacy, required).allocations) == required
  {
    FillTotal(AfterLegacy(slots, legacy), required);
    AfterLegacyTotal(slots, legacy);
  }

  /**
   A successful plan takes from the first `k` sources, for every `k`, as much of
   the requirement as those sources hold beyond the legacy bytes. With distinct
   sources this fixes the amount taken from each one: sources are drained in order.
   */
  lemma PlanDrainsInOrder(slots: seq<Slot>, legacy: nat, required: nat, k: nat)
    requires Distinct(slots) && k <= |slots|
    requires PlanFor(slots, legacy, required).Covered?
    ensures Taken(slots[..k], PlanFor(slots, legacy, required).allocations)
      == Min(required, Capacity(slots[..k], legacy))
  {
    var left := AfterLegacy(slots, legacy);
    AfterLegacyShape(slots, legacy);
    assert Distinct(left);
    FillPrefix(left, required, k);
    AfterLegacyPrefix(slots, legacy, k);
    AfterLegacyTotal(slots[..k], legacy);
    TakenBySources(slots[..k], left[..k], Fill(left, required));
  }

  lemma {:induction false} TakenBySources(a: seq<Slot>, b: seq<Slot>, allocations: seq<Allocation>)
    requires |a| == |b| && forall i :: 0 <= i < |a| ==> a[i].source == b[i].source
    ensures Taken(a, allocations) == Taken(b, allocations)
    decreases a
  {
    if a != [] {
      TakenBySources(a[1..], b[1..], allocations);
    }
  }

  /** Every allocation is positive, comes from a listed source, and fits what that source had. */
  lemma PlanWithinSources(slots: seq<Slot>, legacy: nat, required: nat)
    requires Distinct(slots)
    ensures var f := Fill(AfterLegacy(slots, legacy), required);
      && (forall i :: 0 <= i < |f| ==>
           f[i].amount > 0 && exists j :: 0 <= j < |slots| && slots[j].source == f[i].source)
      && (forall k :: 0 <= k < |slots| ==> AllocOn(f, slots[k].source) <= slots[k].available)
  {
    var left := AfterLegacy(slots, legacy);
    var f := Fill(left, required);
    AfterLegacyShape(slots, legacy);
    FillSources(left, required);
    forall i | 0 <= i < |f|
      ensures exists j :: 0 <= j < |slots| && slots[j].source == f[i].source
    {
      var j :| 0 <= j < |left| && left[j].source == f[i].source;
      assert slots[j].source == f[i].source;
    }
    forall k | 0 <= k < |slots|
      ensures AllocOn(f, slots[k].source) <= slots[k].available
    {
      FillBounded(left, required, k);
    }
  }

  lemma AfterLegacyUnfold(slots: seq<Slot>, index: nat, legacy: nat, done: seq<Slot>)
    requires index < |slots|
    ensures var used := Min(slots[index].available, legacy);
      done + AfterLegacy(slots[index..], legacy)
      == done + [slots[index].(available := slots[index].available - used)]
         + AfterLegacy(slots[index + 1..], legacy - used)
  {
    assert slots[index..][1..] == slots[index + 1..];
  }

  /** First pass of the planner: the legacy hold eats into the available amounts in place. */
  method ApplyLegacyHold(slots: seq<Slot>, legacyReserved: nat) returns (sources: seq<Slot>)
    ensures sources == AfterLegacy(slots, legacyReserved)
  {
    sources := slots;
    var legacy: nat := legacyReserved;
    for index := 0 to |slots|
      invariant |sources| == |slots|
      invariant sources[index..] == slots[index..]
      invariant sources[..index] + AfterLegacy(slots[index..], legacy) == AfterLegacy(slots, legacyReserved)
    {
      ghost var done := sources[..index];
      assert sources[index] == sources[index..][0] == slots[index];
      AfterLegacyUnfold(slots, index, legacy, done);
      hide AfterLegacy;
      var usedByLegacy := Min(sources[index].available, legacy);
      sources := sources[index := sources[index].(available := sources[index].available - usedByLegacy)];
      legacy := legacy - usedByLegacy;
      assert sources[..index + 1] == done + [sources[index]];
    }
    assert sources == sources[..|slots|];
  }

  /** Second pass: allocate source by source and stop once nothing is left to cover. */
  method AllocateInOrder(sources: seq<Slot>, required: nat) returns (allocations: seq<Allocation>, remaining: nat)
    ensures allocations == Fill(sources, required)
    ensures AllocTotal(allocations) + remaining == required
  {
    remaining, allocations := required, [];
    for index := 0 to |sources|
      invariant allocations + Fill(sources[index..], remaining) == Fill(sources, required)
      invariant AllocTotal(allocations) + remaining == required
    {
      if remaining == 0 {
        break;
      }
      var amount := Min(sources[index].available, remaining);
      FillUnfold(sources, index, remaining, allocations);
      AllocTotalSplit(allocations, Piece(sources[index].source, amount));
      allocations := allocations + Piece(sources[index].source, amount);
      remaining := remaining - amount;
    }
  }

  lemma FillUnfold(sources: seq<Slot>, index: nat, remaining: nat, done: seq<Allocation>)
    requires index < |sources| && remaining > 0
    ensures var amount := Min(sources[index].available, remaining);
      && AllocTotal(Piece(sources[index].source, amount)) == amount
      && done + Fill(sources[index..], remaining)
           == done + Piece(sources[index].source, amount) + Fill(sources[index + 1..], remaining - amount)
  {
    assert sources[index..][1..] == sources[index + 1..];
  }

  /** The planner as the store runs it, proved against the declarative plan. */
  method PlanAllocations(slots: seq<Slot>, legacyReserved: nat, required: nat) returns (plan: Plan)
    ensures plan == PlanFor(slots, legacyReserved, required)
    ensures plan.Covered? <==> required <= Capacity(slots, legacyReserved)
  {
    var sources := ApplyLegacyHold(slots, legacyReserved);
    var allocations, remaining := AllocateInOrder(sources, required);
    PlanSucceedsExactly(slots, legacyReserved, required);
    plan := if remaining > 0 then Exceeded else Covered(allocations);
  }
}
