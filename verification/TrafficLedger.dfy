/**
 The upload traffic ledger: accounts with a free balance and one shared reserved
 counter, paid entitlements, upload charges with their immutable allocations, and
 download-side holds left by older releases. Every transaction is a function from
 the ledger it reads to the ledger it commits, or an error that commits nothing.
 */
module TrafficLedger {
  import opened Basics
  import opened Sums
  import opened TrafficPlanner

  datatype ChargeStatus = Reserved | Settled | Refunded | Grandfathered

  datatype Charge = Charge(user: nat, amount: nat, status: ChargeStatus, allocations: seq<Allocation>)

  datatype Account = Account(free: int, period: Period, reserved: int)

  datatype Origin = FromOrder(order: nat) | Gift

  datatype Entitlement = Entitlement(user: nat, amount: nat, remaining: int, expires: int, origin: Origin)

  datatype Hold = Hold(user: nat, bytes: nat)

  datatype Ledger = Ledger(
    accounts: map<nat, Account>,
    entitlements: map<nat, Entitlement>,
    charges: map<nat, Charge>,
    legacy: map<nat, Hold>)

  datatype Error = NotFound | Conflict | TrafficExceeded | QuotaExceeded

  // ---------- aggregate queries ----------

  /** What one charge adds to `Allocated`, or 0 for a row the query skips. */
  function AllocatedPart(charges: map<nat, Charge>, user: nat, status: ChargeStatus, source: Source, u: nat): nat {
    if u in charges && charges[u].status == status && charges[u].user == user
    then AllocOn(charges[u].allocations, source) else 0
  }

  function AllocatedAt(charges: map<nat, Charge>, user: nat, status: ChargeStatus, source: Source): nat -> int {
    (u: nat) => AllocatedPart(charges, user, status, source, u)
  }

  /** Bytes of `source` named by the charges of `user` that are in `status`. */
  function Allocated(charges: map<nat, Charge>, user: nat, status: ChargeStatus, source: Source): int {
    Sum(charges.Keys, AllocatedAt(charges, user, status, source))
  }

  function PromisedPart(charges: map<nat, Charge>, user: nat, u: nat): nat {
    if u in charges && charges[u].status == Reserved && charges[u].user == user then charges[u].amount else 0
  }

  function PromisedAt(charges: map<nat, Charge>, user: nat): nat -> int {
    (u: nat) => PromisedPart(charges, user, u)
  }

  /** The sum of the reserved charges of `user`. */
  function Promised(charges: map<nat, Charge>, user: nat): int {
    Sum(charges.Keys, PromisedAt(charges, user))
  }

  function SnapshotPart(charges: map<nat, Charge>, user: nat, u: nat): nat {
    if u in charges && charges[u].status == Reserved && charges[u].user == user
    then AllocTotal(charges[u].allocations) else 0
  }

  function SnapshotAt(charges: map<nat, Charge>, user: nat): nat -> int {
    (u: nat) => SnapshotPart(charges, user, u)
  }

  /** All bytes allocated by the reserved charges of `user`, over every source. */
  function Snapshotted(charges: map<nat, Charge>, user: nat): int {
    Sum(charges.Keys, SnapshotAt(charges, user))
  }

  function LegacyAt(legacy: map<nat, Hold>, user: nat): nat -> int {
    (r: nat) => if r in legacy && legacy[r].user == user then legacy[r].bytes else 0
  }

  function LegacyHeld(legacy: map<nat, Hold>, user: nat): int {
    Sum(legacy.Keys, LegacyAt(legacy, user))
  }

  function Balance(l: Ledger, user: nat, source: Source): int {
    match source
    case Free(period) =>
      if user in l.accounts && l.accounts[user].period == period then l.accounts[user].free else 0
    case Paid(id) =>
      if id in l.entitlements && l.entitlements[id].user == user then l.entitlements[id].remaining else 0
  }

  // ---------- transactions ----------

  /** A new user's account: nothing granted yet. */
  function OpenAccount(l: Ledger, user: nat): Ledger {
    if user in l.accounts then l else l.(accounts := l.accounts[user := Account(0, Unset, 0)])
  }

  /** Creates the account if needed and turns any older period into the permanent one. */
  function EnsureAccount(l: Ledger, user: nat, initial: int): Ledger {
    var grant := Max(initial, 0);
    if user !in l.accounts then
      l.(accounts := l.accounts[user := Account(grant, Permanent, 0)])
    else
      var a := l.accounts[user];
      if a.period == Permanent then l else
        var free := if a.period == Unset && a.free == 0 then grant else a.free;
        l.(accounts := l.accounts[user := a.(free := free, period := Permanent)])
  }

  predicate Before(entitlements: map<nat, Entitlement>, a: nat, b: nat)
    requires a in entitlements && b in entitlements
  {
    entitlements[a].expires < entitlements[b].expires || (entitlements[a].expires == entitlements[b].expires && a <= b)
  }

  predicate IsFirst(entitlements: map<nat, Entitlement>, ids: set<nat>, m: nat)
    requires ids <= entitlements.Keys
  {
    m in ids && forall k :: k in ids ==> Before(entitlements, m, k)
  }

  lemma {:induction false} FirstExists(entitlements: map<nat, Entitlement>, ids: set<nat>)
    requires ids != {} && ids <= entitlements.Keys
    ensures exists m :: IsFirst(entitlements, ids, m)
    decreases ids
  {
    var x :| x in ids;
    var rest := ids - {x};
    assert ids == rest + {x};
    if rest == {} {
      assert IsFirst(entitlements, ids, x);
    } else {
      FirstExists(entitlements, rest);
      var y :| IsFirst(entitlements, rest, y);
      assert IsFirst(entitlements, ids, if Before(entitlements, x, y) then x else y);
    }
  }

  /** The ids ordered by expiry and then id. */
  function Ordered(entitlements: map<nat, Entitlement>, ids: set<nat>): seq<nat>
    requires ids <= entitlements.Keys
    decreases ids
  {
    if ids == {} then [] else
      FirstExists(entitlements, ids);
      var m :| m in ids && IsFirst(entitlements, ids, m);
      [m] + Ordered(entitlements, ids - {m})
  }

  function Spendable(l: Ledger, user: nat, now: int): set<nat> {
    set id | id in l.entitlements && l.entitlements[id].user == user && l.entitlements[id].expires > now
      && l.entitlements[id].remaining > 0
  }

  function SlotOf(l: Ledger, user: nat, source: Source): Slot {
    Slot(source, Max(Balance(l, user, source) - Allocated(l.charges, user, Reserved, source), 0))
  }

  /** The free balance first, then unexpired entitlements by expiry and id. */
  function Slots(l: Ledger, user: nat, now: int): seq<Slot>
    requires user in l.accounts
  {
    var ids := Ordered(l.entitlements, Spendable(l, user, now));
    [SlotOf(l, user, Free(l.accounts[user].period))]
      + seq(|ids|, i requires 0 <= i < |ids| => SlotOf(l, user, Paid(ids[i])))
  }

  /** Reserved bytes with no upload allocation behind them. */
  function LegacyReserved(l: Ledger, user: nat): nat
    requires user in l.accounts
  {
    Max(l.accounts[user].reserved - Snapshotted(l.charges, user), 0)
  }

  function Reserve(l: Ledger, upload: nat, user: nat, required: int, initial: int, now: int): Result<Ledger, Error> {
    if required < 0 then Err(Conflict) else
      var ready := EnsureAccount(l, user, initial);
      match PlanFor(Slots(ready, user, now), LegacyReserved(ready, user), required)
      case Exceeded => Err(TrafficExceeded)
      case Covered(allocations) =>
        if upload in l.charges then Err(Conflict) else
          var a := ready.accounts[user];
          Ok(ready.(
             charges := ready.charges[upload := Charge(user, required, Reserved, allocations)],
             accounts := ready.accounts[user := a.(reserved := a.reserved + required)]))
  }

  /** Every source the charge names is open to its user and holds all it asks of it. */
  predicate Payable(l: Ledger, c: Charge) {
    forall i :: 0 <= i < |c.allocations| ==>
      var source := c.allocations[i].source;
      && (source.Free? ==> c.user in l.accounts && source.period == l.accounts[c.user].period)
      && AllocOn(c.allocations, source) <= Balance(l, c.user, source)
  }

  function Debit(l: Ledger, user: nat, allocations: seq<Allocation>): Ledger
    requires user in l.accounts
  {
    var a := l.accounts[user];
    l.(accounts := l.accounts[user := a.(free := a.free - AllocOn(allocations, Free(a.period)))],
       entitlements := map id | id in l.entitlements ::
         var e := l.entitlements[id];
         if e.user == user then e.(remaining := e.remaining - AllocOn(allocations, Paid(id))) else e)
  }

  /** Whether that single update matches a row. */
  predicate Affects(l: Ledger, user: nat, a: Allocation)
    requires user in l.accounts
  {
    match a.source
    case Free(period) => l.accounts[user].period == period && l.accounts[user].free >= a.amount
    case Paid(id) => id in l.entitlements && l.entitlements[id].user == user && l.entitlements[id].remaining >= a.amount
  }

  /** Why a charge cannot be settled: its first allocation whose update would match no row. */
  function Obstacle(l: Ledger, c: Charge, i: nat): Error
    requires c.user in l.accounts && i <= |c.allocations|
    decreases |c.allocations| - i
  {
    if i == |c.allocations| then TrafficExceeded
    else if Affects(Debit(l, c.user, c.allocations[..i]), c.user, c.allocations[i]) then Obstacle(l, c, i + 1)
    else if c.allocations[i].source.Free? && c.allocations[i].source.period != l.accounts[c.user].period then Conflict
    else TrafficExceeded
  }

  function Close(l: Ledger, upload: nat, status: ChargeStatus): Ledger
    requires upload in l.charges && l.charges[upload].user in l.accounts
  {
    var c := l.charges[upload];
    var a := l.accounts[c.user];
    l.(charges := l.charges[upload := c.(status := status)],
       accounts := l.accounts[c.user := a.(reserved := a.reserved - c.amount)])
  }

  function Settle(l: Ledger, upload: nat): Result<Ledger, Error> {
    if upload !in l.charges then Ok(l) else
      var c := l.charges[upload];
      match c.status
      case Settled => Ok(l)
      case Grandfathered => Ok(l)
      case Refunded => Err(Conflict)
      case Reserved =>
        if AllocTotal(c.allocations) != c.amount then Err(Conflict)
        else if c.user !in l.accounts then Err(NotFound)
        else if !Payable(l, c) then Err(Obstacle(l, c, 0))
        else if l.accounts[c.user].reserved < c.amount then Err(Conflict)
        else Ok(Close(Debit(l, c.user, c.allocations), upload, Settled))
  }

  function Refund(l: Ledger, upload: nat): Result<Ledger, Error> {
    if upload !in l.charges || l.charges[upload].status != Reserved then Ok(l) else
      var c := l.charges[upload];
      if AllocTotal(c.allocations) != c.amount || c.user !in l.accounts || l.accounts[c.user].reserved < c.amount
      then Err(Conflict) else Ok(Close(l, upload, Refunded))
  }

  /** Orders, redemption codes, check-ins and daily logins all add one entitlement. */
  function Grant(l: Ledger, id: nat, user: nat, bytes: nat, expires: int, origin: Origin): Result<Ledger, Error> {
    if id in l.entitlements then Err(Conflict)
    else Ok(l.(entitlements := l.entitlements[id := Entitlement(user, bytes, bytes, expires, origin)]))
  }

  function OrderEntitlements(l: Ledger, order: nat): set<nat> {
    set id | id in l.entitlements && l.entitlements[id].origin == FromOrder(order)
  }

  predicate Names(c: Charge, id: nat) {
    exists i :: 0 <= i < |c.allocations| && c.allocations[i].source == Paid(id)
  }

  /** The traffic half of an order refund: refused once any byte was spent or is held. */
  function RevokeOrder(l: Ledger, order: nat): Result<Ledger, Error> {
    var ids := OrderEntitlements(l, order);
    if exists id :: id in ids && l.entitlements[id].remaining != l.entitlements[id].amount then Err(QuotaExceeded)
    else if exists id, u :: id in ids && u in l.charges && l.charges[u].status == Reserved && Names(l.charges[u], id)
      then Err(QuotaExceeded)
    else Ok(l.(entitlements := l.entitlements - ids))
  }

  /** Retiring one download-side hold of an older release. */
  function ReleaseLegacy(l: Ledger, reservation: nat): Ledger {
    if reservation !in l.legacy then l else
      var h := l.legacy[reservation];
      var released := l.(legacy := l.legacy - {reservation});
      if h.user !in l.accounts then released else
        var a := l.accounts[h.user];
        released.(accounts := l.accounts[h.user := a.(reserved := Max(a.reserved - h.bytes, 0))])
  }

  // ---------- what every reachable ledger keeps ----------

  predicate SourceOf(l: Ledger, user: nat, source: Source) {
    match source
    case Free(period) => period == Permanent && user in l.accounts && l.accounts[user].period == Permanent
    case Paid(id) => id in l.entitlements && l.entitlements[id].user == user
  }

  /** A live or settled charge names real sources of its user and adds up to its amount. */
  predicate WellFormed(l: Ledger, c: Charge) {
    && c.user in l.accounts
    && AllocTotal(c.allocations) == c.amount
    && forall i :: 0 <= i < |c.allocations| ==>
         c.allocations[i].amount > 0 && SourceOf(l, c.user, c.allocations[i].source)
  }

  predicate Live(c: Charge) {
    c.status == Reserved || c.status == Settled
  }

  ghost predicate ChargesWellFormed(l: Ledger) {
    forall u :: u in l.charges && Live(l.charges[u]) ==> WellFormed(l, l.charges[u])
  }

  /** Solvency: the reserved allocations on each source fit what is left of it. */
  ghost predicate Solvent(l: Ledger) {
    forall user: nat, source: Source :: Allocated(l.charges, user, Reserved, source) <= Balance(l, user, source)
  }

  /** The shared counter is the reserved charges plus the legacy holds. */
  ghost predicate Counted(l: Ledger) {
    forall user :: user in l.accounts ==>
      && !l.accounts[user].period.Monthly?
      && l.accounts[user].reserved == Promised(l.charges, user) + LegacyHeld(l.legacy, user)
  }

  /** Conservation: what was granted is what remains plus what was settled. */
  ghost predicate Conserved(l: Ledger) {
    forall id :: id in l.entitlements ==>
      var e := l.entitlements[id];
      e.remaining + Allocated(l.charges, e.user, Settled, Paid(id)) == e.amount
  }

  ghost predicate HoldsHaveAccounts(l: Ledger) {
    forall r :: r in l.legacy ==> l.legacy[r].user in l.accounts
  }

  ghost predicate Inv(l: Ledger) {
    ChargesWellFormed(l) && Solvent(l) && Counted(l) && Conserved(l) && HoldsHaveAccounts(l)
  }

  // ---------- how one row moves the aggregates ----------

  lemma AllocatedChange(
      charges: map<nat, Charge>, charges': map<nat, Charge>, u: nat, user: nat, status: ChargeStatus, source: Source)
    requires charges - {u} == charges' - {u}
    ensures Allocated(charges', user, status, source) - AllocatedPart(charges', user, status, source, u)
         == Allocated(charges, user, status, source) - AllocatedPart(charges, user, status, source, u)
  {
    SameRest(charges, charges', u);
    SumChange(charges.Keys, AllocatedAt(charges, user, status, source), charges'.Keys,
      AllocatedAt(charges', user, status, source), u);
  }

  lemma PromisedChange(charges: map<nat, Charge>, charges': map<nat, Charge>, u: nat, user: nat)
    requires charges - {u} == charges' - {u}
    ensures Promised(charges', user) - PromisedPart(charges', user, u)
      == Promised(charges, user) - PromisedPart(charges, user, u)
  {
    SameRest(charges, charges', u);
    SumChange(charges.Keys, PromisedAt(charges, user), charges'.Keys, PromisedAt(charges', user), u);
  }

  lemma LegacyChange(legacy: map<nat, Hold>, r: nat, user: nat)
    ensures LegacyHeld(legacy - {r}, user) == LegacyHeld(legacy, user) - LegacyAt(legacy, user)(r)
  {
    SameRest(legacy, legacy - {r}, r);
    SumChange(legacy.Keys, LegacyAt(legacy, user), (legacy - {r}).Keys, LegacyAt(legacy - {r}, user), r);
  }

  lemma SameRest<V>(a: map<nat, V>, b: map<nat, V>, k: nat)
    requires a - {k} == b - {k}
    ensures a.Keys - {k} == b.Keys - {k}
    ensures forall j :: j in a && j != k ==> j in b && a[j] == b[j]
  {
    assert a.Keys - {k} == (a - {k}).Keys && b.Keys - {k} == (b - {k}).Keys;
    forall j | j in a && j != k ensures j in b && a[j] == b[j] {
      assert j in a - {k} && (a - {k})[j] == a[j];
    }
  }

  lemma AllocatedBounds(charges: map<nat, Charge>, user: nat, status: ChargeStatus, source: Source)
    ensures Allocated(charges, user, status, source) >= 0
    ensures forall u :: u in charges && charges[u].status == status && charges[u].user == user ==>
      AllocOn(charges[u].allocations, source) <= Allocated(charges, user, status, source)
  {
    var f := AllocatedAt(charges, user, status, source);
    SumNonNegative(charges.Keys, f);
    forall u | u in charges && charges[u].status == status && charges[u].user == user
      ensures AllocOn(charges[u].allocations, source) <= Allocated(charges, user, status, source)
    {
      assert f(u) == AllocOn(charges[u].allocations, source);
    }
  }

  lemma PromisedBounds(l: Ledger, user: nat)
    ensures Promised(l.charges, user) >= 0 && LegacyHeld(l.legacy, user) >= 0
    ensures forall u :: u in l.charges && l.charges[u].status == Reserved && l.charges[u].user == user ==>
      l.charges[u].amount <= Promised(l.charges, user)
    ensures forall r :: r in l.legacy && l.legacy[r].user == user ==> l.legacy[r].bytes <= LegacyHeld(l.legacy, user)
  {
    var f := PromisedAt(l.charges, user);
    var g := LegacyAt(l.legacy, user);
    SumNonNegative(l.charges.Keys, f);
    SumNonNegative(l.legacy.Keys, g);
    forall u | u in l.charges && l.charges[u].status == Reserved && l.charges[u].user == user
      ensures l.charges[u].amount <= Promised(l.charges, user)
    {
      assert f(u) == l.charges[u].amount;
    }
    forall r | r in l.legacy && l.legacy[r].user == user
      ensures l.legacy[r].bytes <= LegacyHeld(l.legacy, user)
    {
      assert g(r) == l.legacy[r].bytes;
    }
  }
}
