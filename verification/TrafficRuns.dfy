/**
 Whole runs of the traffic ledger: any sequence of transactions, by any users, in
 any order, some of which commit nothing.
 */
module TrafficRuns {
  import opened Basics
  import opened Sums
  import opened TrafficPlanner
  import opened TrafficLedger
  import opened TrafficSafety

  datatype Step =
    | Open(user: nat)
    | Ensure(user: nat, initial: int)
    | ReserveFor(upload: nat, user: nat, required: int, initial: int, now: int)
    | SettleOf(upload: nat)
    | RefundOf(upload: nat)
    | GrantTo(id: nat, user: nat, bytes: nat, expires: int, origin: Origin)
    | Revoke(order: nat)
    | DropLegacy(reservation: nat)

  /** A transaction that fails rolls back. */
  function Commit(l: Ledger, r: Result<Ledger, Error>): Ledger {
    if r.Ok? then r.value else l
  }

  function Apply(l: Ledger, step: Step): Ledger {
    match step
    case Open(user) => OpenAccount(l, user)
    case Ensure(user, initial) => EnsureAccount(l, user, initial)
    case ReserveFor(upload, user, required, initial, now) => Commit(l, Reserve(l, upload, user, required, initial, now))
    case SettleOf(upload) => Commit(l, Settle(l, upload))
    case RefundOf(upload) => Commit(l, Refund(l, upload))
    case GrantTo(id, user, bytes, expires, origin) => Commit(l, Grant(l, id, user, bytes, expires, origin))
    case Revoke(order) => Commit(l, RevokeOrder(l, order))
    case DropLegacy(reservation) => ReleaseLegacy(l, reservation)
  }

  function Run(l: Ledger, steps: seq<Step>): Ledger
    decreases steps
  {
    if steps == [] then l else Run(Apply(l, steps[0]), steps[1..])
  }

  lemma ApplyKeeps(l: Ledger, step: Step)
    requires Inv(l)
    ensures Inv(Apply(l, step))
  {
    hide Inv, OpenAccount, EnsureAccount, Reserve, Settle, Refund, Grant, RevokeOrder, ReleaseLegacy;
    match step
    case Open(user) => OpenAccountKeeps(l, user);
    case Ensure(user, initial) => EnsureAccountKeeps(l, user, initial);
    case ReserveFor(upload, user, required, initial, now) =>
      if Reserve(l, upload, user, required, initial, now).Ok? {
        ReserveKeeps(l, upload, user, required, initial, now);
      }
    case SettleOf(upload) =>
      if Settle(l, upload).Ok? {
        SettleKeeps(l, upload);
      }
    case RefundOf(upload) =>
      if Refund(l, upload).Ok? {
        RefundKeeps(l, upload);
      }
    case GrantTo(id, user, bytes, expires, origin) =>
      if Grant(l, id, user, bytes, expires, origin).Ok? {
        GrantKeeps(l, id, user, bytes, expires, origin);
      }
    case Revoke(order) =>
      if RevokeOrder(l, order).Ok? {
        RevokeOrderKeeps(l, order);
      }
    case DropLegacy(reservation) => ReleaseLegacyKeeps(l, reservation);
  }

  lemma {:induction false} RunKeeps(l: Ledger, steps: seq<Step>)
    requires Inv(l)
    ensures Inv(Run(l, steps))
    decreases steps
  {
    hide Inv, Apply;
    if steps != [] {
      ApplyKeeps(l, steps[0]);
      RunKeeps(Apply(l, steps[0]), steps[1..]);
    }
  }

  /** Before the first account. */
  lemma EmptyLedgerIsSound()
    ensures Inv(Ledger(map[], map[], map[], map[]))
  {
    var l := Ledger(map[], map[], map[], map[]);
    forall user: nat, source ensures Allocated(l.charges, user, Reserved, source) <= Balance(l, user, source) {
      assert Allocated(l.charges, user, Reserved, source) == 0;
    }
  }

  /**
   Solvency over whole runs: after any transactions whatsoever, every charge that is
   still reserved can be settled and can be refunded.
   */
  lemma EveryHoldStaysResolvable(l: Ledger, steps: seq<Step>, upload: nat)
    requires Inv(l)
    requires upload in Run(l, steps).charges && Run(l, steps).charges[upload].status == Reserved
    ensures Settle(Run(l, steps), upload).Ok? && Refund(Run(l, steps), upload).Ok?
  {
    hide Inv, Run, Settle, Refund;
    RunKeeps(l, steps);
    ResolvingNeverRejected(Run(l, steps), upload);
  }

  /** A charge keeps its user, amount and allocations, and leaves `Reserved` at most once. */
  predicate Follows(before: Charge, after: Charge) {
    && after.user == before.user && after.amount == before.amount && after.allocations == before.allocations
    && (before.status != Reserved ==> after.status == before.status)
  }

  ghost predicate ChargesFollow(l: Ledger, l': Ledger) {
    forall u :: u in l.charges ==> u in l'.charges && Follows(l.charges[u], l'.charges[u])
  }

  lemma ApplyFollows(l: Ledger, step: Step)
    ensures ChargesFollow(l, Apply(l, step))
  {
    hide Slots, LegacyReserved, PlanFor, Payable, Balance;
  }

  lemma {:induction false} ChargesResolveOnce(l: Ledger, steps: seq<Step>)
    ensures ChargesFollow(l, Run(l, steps))
    decreases steps
  {
    hide Apply;
    if steps != [] {
      ApplyFollows(l, steps[0]);
      ChargesResolveOnce(Apply(l, steps[0]), steps[1..]);
    }
  }

  // ---------- the free balance ----------

  /** Free bytes ever granted to a converted account: what is left and what was settled. */
  function FreeGranted(l: Ledger, user: nat): int
    requires user in l.accounts
  {
    l.accounts[user].free + Allocated(l.charges, user, Settled, Free(Permanent))
  }

  predicate Converted(l: Ledger, user: nat) {
    user in l.accounts && l.accounts[user].period == Permanent
  }

  /** The balance moves against the settled bytes of the one charge a step touches. */
  lemma FreeMoves(l: Ledger, l': Ledger, u: nat, user: nat)
    requires Converted(l, user) && Converted(l', user) && l.charges - {u} == l'.charges - {u}
    requires l.accounts[user].free - l'.accounts[user].free
          == AllocatedPart(l'.charges, user, Settled, Free(Permanent), u)
             - AllocatedPart(l.charges, user, Settled, Free(Permanent), u)
    ensures FreeGranted(l', user) == FreeGranted(l, user)
  {
    hide Allocated, AllocatedPart;
    AllocatedChange(l.charges, l'.charges, u, user, Settled, Free(Permanent));
  }

  lemma SettleConservesFree(l: Ledger, upload: nat, user: nat)
    requires Converted(l, user) && Settle(l, upload).Ok?
    ensures var l' := Settle(l, upload).value; Converted(l', user) && FreeGranted(l', user) == FreeGranted(l, user)
  {
    hide Allocated, Payable, AllocOn, AllocTotal;
    var l' := Settle(l, upload).value;
    assert l.charges - {upload} == l'.charges - {upload};
    FreeMoves(l, l', upload, user);
  }

  lemma RefundConservesFree(l: Ledger, upload: nat, user: nat)
    requires Converted(l, user) && Refund(l, upload).Ok?
    ensures var l' := Refund(l, upload).value; Converted(l', user) && FreeGranted(l', user) == FreeGranted(l, user)
  {
    hide Allocated, AllocOn, AllocTotal;
    var l' := Refund(l, upload).value;
    assert l.charges - {upload} == l'.charges - {upload};
    FreeMoves(l, l', upload, user);
  }

  lemma ReserveConservesFree(l: Ledger, upload: nat, user: nat, required: int, initial: int, now: int, v: nat)
    requires Converted(l, v) && Reserve(l, upload, user, required, initial, now).Ok?
    ensures var l' := Reserve(l, upload, user, required, initial, now).value;
      Converted(l', v) && FreeGranted(l', v) == FreeGranted(l, v)
  {
    hide Allocated, AllocOn, AllocTotal, Slots, LegacyReserved, PlanFor;
    var l' := Reserve(l, upload, user, required, initial, now).value;
    assert l.charges - {upload} == l'.charges - {upload};
    FreeMoves(l, l', upload, v);
  }

  lemma ApplyConservesFree(l: Ledger, step: Step, user: nat)
    requires Converted(l, user)
    ensures Converted(Apply(l, step), user) && FreeGranted(Apply(l, step), user) == FreeGranted(l, user)
  {
    hide Allocated, Settle, Refund, Reserve;
    match step
    case SettleOf(upload) =>
      if Settle(l, upload).Ok? {
        SettleConservesFree(l, upload, user);
      }
    case RefundOf(upload) =>
      if Refund(l, upload).Ok? {
        RefundConservesFree(l, upload, user);
      }
    case ReserveFor(upload, owner, required, initial, now) =>
      if Reserve(l, upload, owner, required, initial, now).Ok? {
        ReserveConservesFree(l, upload, owner, required, initial, now, user);
      }
    case _ =>
  }

  /** Once an account is converted, no later run grants or loses a free byte. */
  lemma {:induction false} FreeConserved(l: Ledger, steps: seq<Step>, user: nat)
    requires Converted(l, user)
    ensures Converted(Run(l, steps), user) && FreeGranted(Run(l, steps), user) == FreeGranted(l, user)
    decreases steps
  {
    hide Apply, FreeGranted, Converted;
    if steps != [] {
      ApplyConservesFree(l, steps[0], user);
      FreeConserved(Apply(l, steps[0]), steps[1..], user);
    }
  }

  /** The initial grant of a new account is given once, by whichever transaction comes first. */
  lemma InitialGrantOnce(l: Ledger, user: nat, initial: int, steps: seq<Step>)
    requires Inv(l)
    requires user !in l.accounts || l.accounts[user] == Account(0, Unset, l.accounts[user].reserved)
    ensures var granted := EnsureAccount(l, user, initial);
      Converted(Run(granted, steps), user) && FreeGranted(Run(granted, steps), user) == Max(initial, 0)
  {
    hide Allocated, Run;
    var granted := EnsureAccount(l, user, initial);
    Unnamed(l, user, Settled, Free(Permanent));
    FreeConserved(granted, steps, user);
  }
}
