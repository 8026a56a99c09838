/** What every reachable shop keeps about points, orders and what they delivered. */
module OrderSafety {
  import opened Basics
  import opened Sums
  import opened Points
  import opened Orders
  import L = TrafficLedger
  import M = Membership
  import T = TrafficRuns
  import TrafficSafety

  // ---------- what each order owes the book ----------

  /** The entries an order must have in its present status, and no others. */
  predicate Due(order: Order, key: EventKey) {
    match key
    case Spend(_) => order.payment == WithPoints && (order.status == Paid || order.status == Status.Refunded)
    case Refund(_) => order.payment == WithPoints && order.status == Status.Refunded
    case Reward(_) => order.payment == Sandbox && order.price > 0
      && (order.status == Paid || order.status == Status.Refunded)
    case RewardRefund(_) => order.payment == Sandbox && order.price > 0 && order.status == Status.Refunded
    case _ => false
  }

  function Amount(order: Order, key: EventKey): int {
    match key
    case Spend(_) => -order.pointsPrice
    case Refund(_) => order.pointsPrice
    case Reward(_) => if order.price > 0 then RewardFor(order.price) else 0
    case RewardRefund(_) => if order.price > 0 then -RewardFor(order.price) else 0
    case _ => 0
  }

  /** One spend or one reward when paid; nothing otherwise. */
  function Net(order: Order): int {
    if order.status != Paid then 0
    else if order.payment == WithPoints then -order.pointsPrice
    else if order.payment == Sandbox && order.price > 0 then RewardFor(order.price)
    else 0
  }

  predicate Matches(orders: map<nat, Order>, e: Entry) {
    e.key.Welcome? || e.key.AdminProvision? ||
    (var o := e.key.order;
     o in orders && e.user == orders[o].user && Due(orders[o], e.key) && e.delta == Amount(orders[o], e.key))
  }

  predicate AllMatch(orders: map<nat, Order>, entries: seq<Entry>) {
    forall i :: 0 <= i < |entries| ==> Matches(orders, entries[i])
  }

  ghost predicate AllBooked(orders: map<nat, Order>, entries: seq<Entry>) {
    forall o, key :: o in orders && Concerns(key, o) && Due(orders[o], key) ==> key in Keys(entries)
  }

  predicate NetEffects(orders: map<nat, Order>, entries: seq<Entry>) {
    forall o :: o in orders ==> Effect(entries, o) == Net(orders[o])
  }

  ghost predicate Booked(orders: map<nat, Order>, entries: seq<Entry>) {
    AllMatch(orders, entries) && AllBooked(orders, entries) && NetEffects(orders, entries)
  }

  // ---------- the rest of the invariant ----------

  /** Entitlements bought by an order exist only while it is paid, one per order. */
  ghost predicate Delivered(orders: map<nat, Order>, entitlements: map<nat, L.Entitlement>) {
    && (forall id, o :: id in entitlements && entitlements[id].origin == L.FromOrder(o) ==>
          o in orders && orders[o].status == Paid && entitlements[id].user == orders[o].user)
    && (forall i, j ::
          i in entitlements && j in entitlements && entitlements[i].origin == entitlements[j].origin != L.Gift ==>
          i == j)
  }

  predicate SameRequest(a: Order, b: Order) {
    a.user == b.user && a.key == b.key
  }

  /** Only the two implemented methods can have been paid; idempotency keys are unique. */
  predicate RowsSound(s: Shop) {
    && (forall o :: o in s.orders ==>
          && s.orders[o].product in s.catalog
          && (s.orders[o].status == Paid || s.orders[o].status == Status.Refunded ==>
               s.orders[o].payment == Sandbox || s.orders[o].payment == WithPoints))
    && (forall o, p :: o in s.orders && p in s.orders && SameRequest(s.orders[o], s.orders[p]) ==> o == p)
  }

  ghost predicate Inv(s: Shop) {
    && Points.Inv(s.book)
    && s.book.balances.Keys == s.ledger.accounts.Keys
    && L.Inv(s.ledger)
    && RowsSound(s)
    && Booked(s.orders, s.book.entries)
    && Delivered(s.orders, s.ledger.entitlements)
  }

  // ---------- moving one order ----------

  predicate SameTerms(order: Order, order': Order) {
    order'.user == order.user && order'.product == order.product && order'.price == order.price
    && order'.pointsPrice == order.pointsPrice && order'.payment == order.payment && order'.key == order.key
  }

  /** Only the entry `key` becomes due when `order` turns into `order'`. */
  ghost predicate OneMoreDue(order: Order, order': Order, key: EventKey) {
    && SameTerms(order, order') && !Due(order, key) && Due(order', key)
    && (forall k :: Concerns(k, key.order) ==> (Due(order', k) <==> Due(order, k) || k == key))
    && Net(order') == Net(order) + Amount(order', key)
  }

  lemma BookedWithEntry(orders: map<nat, Order>, entries: seq<Entry>, order': Order, e: Entry)
    requires Booked(orders, entries) && !e.key.Welcome? && !e.key.AdminProvision?
    requires e.key.order in orders && OneMoreDue(orders[e.key.order], order', e.key)
    requires e.user == order'.user && e.delta == Amount(order', e.key)
    ensures Booked(orders[e.key.order := order'], entries + [e])
  {
    var o, all := e.key.order, entries + [e];
    var orders' := orders[o := order'];
    KeysAppend(entries, e);
    hide Keys;
    forall i | 0 <= i < |all| ensures Matches(orders', all[i]) {
      assert i < |entries| ==> Matches(orders, entries[i]);
    }
    assert AllBooked(orders', all);
    hide Due, Amount, Net;
    forall p | p in orders' ensures Effect(all, p) == Net(orders'[p]) {
      EffectAppend(entries, e, p);
    }
  }

  /** Nothing becomes due, as when a pending order is closed. */
  predicate SameDues(order: Order, order': Order) {
    && SameTerms(order, order')
    && (order'.status == order.status
       || (order.status == Pending && order'.status == Closed)
       || (order.payment == Sandbox && order.price <= 0))
  }

  lemma BookedWithout(orders: map<nat, Order>, orders': map<nat, Order>, entries: seq<Entry>)
    requires Booked(orders, entries) && orders'.Keys == orders.Keys
    requires forall o :: o in orders ==> SameDues(orders[o], orders'[o])
    ensures Booked(orders', entries)
  {
    hide Effect, Keys;
    forall i | 0 <= i < |entries| ensures Matches(orders', entries[i]) {
      assert Matches(orders, entries[i]);
    }
    forall o, key | o in orders' && Concerns(key, o) && Due(orders'[o], key) ensures key in Keys(entries) {
      assert Due(orders[o], key);
    }
    forall o | o in orders' ensures Effect(entries, o) == Net(orders'[o]) {
      assert SameDues(orders[o], orders'[o]);
    }
  }

  lemma BookedNewOrder(orders: map<nat, Order>, entries: seq<Entry>, o: nat, order: Order)
    requires Booked(orders, entries) && o !in orders && order.status == Pending
    ensures Booked(orders[o := order], entries)
  {
    forall i | 0 <= i < |entries|
      ensures !Concerns(entries[i].key, o) && Matches(orders[o := order], entries[i])
    {
      assert Matches(orders, entries[i]);
    }
    NoEffect(entries, o);
  }

  lemma BookedAward(orders: map<nat, Order>, entries: seq<Entry>, e: Entry)
    requires Booked(orders, entries) && (e.key.Welcome? || e.key.AdminProvision?)
    ensures Booked(orders, entries + [e])
  {
    KeysAppend(entries, e);
    hide Keys;
    forall o | o in orders ensures Effect(entries + [e], o) == Net(orders[o]) {
      EffectAppend(entries, e, o);
    }
  }

  // ---------- each transaction ----------

  lemma NotDueNotBooked(orders: map<nat, Order>, entries: seq<Entry>, key: EventKey)
    requires AllMatch(orders, entries) && !key.Welcome? && !key.AdminProvision?
    requires key.order in orders && !Due(orders[key.order], key)
    ensures key !in Keys(entries)
  {
  }

  function PaidOrder(order: Order, transaction: Transaction): Order {
    order.(status := Paid, transaction := transaction)
  }

  /** What a completed order changes, one table at a time. */
  lemma CompleteChanges(s: Shop, o: nat, transaction: Transaction, entitlement: nat, now: int, reward: bool)
    requires o in s.orders && s.orders[o].product in s.catalog
    requires CompleteOrder(s, o, transaction, entitlement, now, reward).Ok?
    ensures var s', order := CompleteOrder(s, o, transaction, entitlement, now, reward).value, s.orders[o];
      && order.status == Pending && s'.catalog == s.catalog && s'.events == s.events
      && s'.orders == s.orders[o := PaidOrder(order, transaction)]
      && (if reward && order.price > 0
          then AddPoints(s.book, order.user, RewardFor(order.price), Reward(o)) == Added(s'.book)
          else s'.book == s.book)
      && (s'.ledger == s.ledger || exists bytes: nat, expires ::
           L.Grant(s.ledger, entitlement, order.user, bytes, expires, L.FromOrder(o)) == Ok(s'.ledger))
  {
    hide AddPoints, L.Grant;
  }

  lemma DeliveredPaid(s: Shop, s': Shop, o: nat, order': Order, entitlement: nat)
    requires L.Inv(s.ledger) && Delivered(s.orders, s.ledger.entitlements) && o in s.orders
    requires s.orders[o].status == Pending && order'.status == Paid && order'.user == s.orders[o].user
    requires s'.orders == s.orders[o := order']
    requires s'.ledger == s.ledger || exists bytes: nat, expires ::
      L.Grant(s.ledger, entitlement, s.orders[o].user, bytes, expires, L.FromOrder(o)) == Ok(s'.ledger)
    ensures L.Inv(s'.ledger) && Delivered(s'.orders, s'.ledger.entitlements) && s'.ledger.accounts == s.ledger.accounts
  {
    hide L.Inv;
    if s'.ledger != s.ledger {
      var bytes: nat, expires :| L.Grant(s.ledger, entitlement, s.orders[o].user, bytes, expires, L.FromOrder(o))
        == Ok(s'.ledger);
      TrafficSafety.GrantKeeps(s.ledger, entitlement, s.orders[o].user, bytes, expires, L.FromOrder(o));
    }
  }

  lemma RowsPaid(s: Shop, s': Shop, o: nat, order': Order)
    requires RowsSound(s) && o in s.orders && s'.catalog == s.catalog && s'.orders == s.orders[o := order']
    requires SameTerms(s.orders[o], order') && (order'.payment == Sandbox || order'.payment == WithPoints)
    ensures RowsSound(s')
  {
  }

  lemma BookedPaid(s: Shop, o: nat, order': Order, key: EventKey)
    requires Booked(s.orders, s.book.entries) && !key.Welcome? && !key.AdminProvision? && key.order == o
    requires o in s.orders && OneMoreDue(s.orders[o], order', key)
    requires AddPoints(s.book, order'.user, Amount(order', key), key).Added?
    ensures Booked(s.orders[o := order'], AddPoints(s.book, order'.user, Amount(order', key), key).book.entries)
  {
    NotDueNotBooked(s.orders, s.book.entries, key);
    var next := s.book.balances[order'.user] + Amount(order', key);
    hide Booked, OneMoreDue, Amount;
    BookedWithEntry(s.orders, s.book.entries, order', Entry(order'.user, Amount(order', key), next, key));
  }

  lemma SandboxKeeps(s: Shop, o: nat, user: nat, event: nat, transaction: Transaction, entitlement: nat, now: int)
    requires Inv(s) && CompleteSandboxOrder(s, o, user, event, transaction, entitlement, now).Ok?
    ensures Inv(CompleteSandboxOrder(s, o, user, event, transaction, entitlement, now).value)
  {
    hide CompleteOrder, L.Inv, Points.Inv, Booked, Delivered, RowsSound, AddPoints;
    var s' := CompleteSandboxOrder(s, o, user, event, transaction, entitlement, now).value;
    var order := s.orders[o];
    if order.status != Paid && event !in s.events {
      CompleteChanges(s.(events := s.events + {event}), o, transaction, entitlement, now, true);
      var order' := PaidOrder(order, transaction);
      DeliveredPaid(s, s', o, order', entitlement);
      RowsPaid(s, s', o, order');
      if order.price > 0 {
        AddPointsKeeps(s.book, user, RewardFor(order.price), Reward(o));
        BookedPaid(s, o, order', Reward(o));
      } else {
        BookedWithout(s.orders, s'.orders, s.book.entries);
      }
    }
  }

  lemma PayPointsKeeps(s: Shop, o: nat, user: nat, entitlement: nat, now: int)
    requires Inv(s) && PayOrderWithPoints(s, o, user, entitlement, now).Ok?
    ensures Inv(PayOrderWithPoints(s, o, user, entitlement, now).value)
  {
    hide CompleteOrder, L.Inv, Points.Inv, Booked, Delivered, RowsSound, AddPoints;
    var s' := PayOrderWithPoints(s, o, user, entitlement, now).value;
    var order := s.orders[o];
    if order.status != Paid {
      var spent := Booking(s, user, -order.pointsPrice, Spend(o)).value;
      CompleteChanges(spent, o, PointsPayment(o), entitlement, now, false);
      var order' := PaidOrder(order, PointsPayment(o));
      DeliveredPaid(s, s', o, order', entitlement);
      RowsPaid(s, s', o, order');
      AddPointsKeeps(s.book, user, -order.pointsPrice, Spend(o));
      BookedPaid(s, o, order', Spend(o));
    }
  }

  lemma RevokedDelivered(s: Shop, o: nat, order': Order)
    requires L.Inv(s.ledger) && Delivered(s.orders, s.ledger.entitlements) && o in s.orders
    requires L.RevokeOrder(s.ledger, o).Ok?
    ensures var l := L.RevokeOrder(s.ledger, o).value;
      L.Inv(l) && l.accounts == s.ledger.accounts && Delivered(s.orders[o := order'], l.entitlements)
        && L.OrderEntitlements(l, o) == {}
  {
    hide L.Inv;
    TrafficSafety.RevokeOrderKeeps(s.ledger, o);
    var l := L.RevokeOrder(s.ledger, o).value;
    assert forall id :: id in l.entitlements ==> id !in L.OrderEntitlements(l, o);
  }

  lemma ReturnKeeps(s: Shop, o: nat)
    requires Points.Inv(s.book) && Booked(s.orders, s.book.entries) && o in s.orders && s.orders[o].status == Paid
    requires ReturnPoints(s, o).Ok?
    requires s.orders[o].payment == Sandbox || s.orders[o].payment == WithPoints
    ensures var s', order' := ReturnPoints(s, o).value, s.orders[o].(status := Status.Refunded);
      && s' == s.(book := s'.book) && Points.Inv(s'.book) && s'.book.balances.Keys == s.book.balances.Keys
      && Booked(s.orders[o := order'], s'.book.entries)
  {
    hide Points.Inv, Booked, AddPoints;
    var order := s.orders[o];
    var order' := order.(status := Status.Refunded);
    if order.payment == WithPoints {
      AddPointsKeeps(s.book, order.user, order.pointsPrice, Refund(o));
      BookedPaid(s, o, order', Refund(o));
    } else if order.price > 0 {
      AddPointsKeeps(s.book, order.user, -RewardFor(order.price), RewardRefund(o));
      BookedPaid(s, o, order', RewardRefund(o));
    } else {
      BookedWithout(s.orders, s.orders[o := order'], s.book.entries);
    }
  }

  lemma RefundKeeps(s: Shop, o: nat)
    requires Inv(s) && RefundOrder(s, o).Ok?
    ensures Inv(RefundOrder(s, o).value) && L.OrderEntitlements(RefundOrder(s, o).value.ledger, o) == {}
  {
    hide ReturnPoints, L.RevokeOrder, L.Inv, Points.Inv, Booked, Delivered, RowsSound;
    var s' := RefundOrder(s, o).value;
    var order' := s.orders[o].(status := Status.Refunded);
    RevokedDelivered(s, o, order');
    ReturnKeeps(s, o);
    RowsPaid(s, s', o, order');
  }

  lemma CloseKeeps(s: Shop, now: int)
    requires Inv(s)
    ensures Inv(CloseStale(s, now))
  {
    hide L.Inv, Points.Inv, Booked;
    var s' := CloseStale(s, now);
    BookedWithout(s.orders, s'.orders, s.book.entries);
    forall o | o in s.orders ensures s'.orders[o].status == Paid <==> s.orders[o].status == Paid {}
  }

  lemma CreateKeeps(s: Shop, o: nat, user: nat, product: nat, payment: Payment, key: string, now: int)
    requires Inv(s) && CreateOrder(s, o, user, product, payment, key, now).Ok?
    ensures Inv(CreateOrder(s, o, user, product, payment, key, now).value)
  {
    hide L.Inv, Points.Inv, Booked;
    var s' := CreateOrder(s, o, user, product, payment, key, now).value;
    if s' != s {
      forall p | p in s.orders ensures s.orders[p].user != user || s.orders[p].key != key {
        assert p !in IdempotentOrders(s, user, key);
      }
      BookedNewOrder(s.orders, s.book.entries, o, s'.orders[o]);
    }
  }

  lemma AwardKeeps(s: Shop, key: EventKey)
    requires Inv(s) && (key.Welcome? || key.AdminProvision?) && Booking(s, key.user, 100, key).Ok?
    ensures Inv(Booking(s, key.user, 100, key).value)
  {
    hide L.Inv, Points.Inv, Booked, Delivered, Keys;
    AddPointsKeeps(s.book, key.user, 100, key);
    if key !in Keys(s.book.entries) {
      BookedAward(s.orders, s.book.entries, Entry(key.user, 100, s.book.balances[key.user] + 100, key));
    }
  }

  // ---------- ledger transactions around the orders ----------

  /** Ledger steps of uploads and gifts neither add nor relabel an order's entitlement. */
  predicate OriginsKept(l: L.Ledger, l': L.Ledger) {
    forall id :: id in l'.entitlements && l'.entitlements[id].origin != L.Gift ==>
      id in l.entitlements && l.entitlements[id].origin == l'.entitlements[id].origin
        && l.entitlements[id].user == l'.entitlements[id].user
  }

  lemma ForeignKeepsOrigins(l: L.Ledger, step: T.Step)
    requires Foreign(step)
    ensures OriginsKept(l, T.Apply(l, step)) && l.accounts.Keys <= T.Apply(l, step).accounts.Keys
  {
    hide L.Slots, L.LegacyReserved, L.Payable, L.Balance;
  }

  lemma {:induction false} StrangerOwnsNothing(entries: seq<Entry>, user: nat)
    requires forall i :: 0 <= i < |entries| ==> entries[i].user != user
    ensures Total(entries, user) == 0
  {
    if entries != [] {
      StrangerOwnsNothing(entries[..|entries| - 1], user);
    }
  }

  lemma WithLedgerKeeps(s: Shop, ledger: L.Ledger)
    requires Inv(s) && L.Inv(ledger) && OriginsKept(s.ledger, ledger) && s.ledger.accounts.Keys <= ledger.accounts.Keys
    ensures Inv(WithLedger(s, ledger))
  {
    hide L.Inv, Booked, Running, Distinct, Total;
    var s' := WithLedger(s, ledger);
    forall u | u in s'.book.balances ensures s'.book.balances[u] == Total(s.book.entries, u) >= 0 {
      if u !in s.book.balances {
        StrangerOwnsNothing(s.book.entries, u);
      }
    }
  }

  lemma RegisterKeeps(s: Shop, user: nat)
    requires Inv(s)
    ensures Inv(Register(s, user))
  {
    if user !in s.members {
      TrafficSafety.OpenAccountKeeps(s.ledger, user);
      WithLedgerKeeps(s, L.OpenAccount(s.ledger, user));
      hide L.Inv, Points.Inv, Booked, Delivered, WithLedger;
      assert RowsSound(Register(s, user));
    }
  }

  lemma BenefitKeeps(s: Shop, user: nat, perk: Perk, now: int)
    requires Inv(s) && DeliverMembership(s, user, perk, now).Ok?
    ensures Inv(DeliverMembership(s, user, perk, now).value)
  {
    hide L.Inv, Points.Inv, Booked, Delivered;
  }

  lemma ApplyKeeps(s: Shop, step: Step)
    requires Inv(s)
    ensures Inv(Apply(s, step))
  {
    hide Inv, Register, Booking, CreateOrder, CompleteSandboxOrder, PayOrderWithPoints, RefundOrder, CloseStale,
      DeliverMembership, WithLedger;
    match step
    case NewUser(user) => RegisterKeeps(s, user);
    case Award(key) =>
      if (key.Welcome? || key.AdminProvision?) && Booking(s, key.user, 100, key).Ok? {
        AwardKeeps(s, key);
      }
    case SetProduct(id, product) => ProductKeeps(s, id, product);
    case Create(o, user, product, payment, key, now) =>
      if CreateOrder(s, o, user, product, payment, key, now).Ok? {
        CreateKeeps(s, o, user, product, payment, key, now);
      }
    case PaySandbox(o, user, event, transaction, entitlement, now) =>
      if CompleteSandboxOrder(s, o, user, event, transaction, entitlement, now).Ok? {
        SandboxKeeps(s, o, user, event, transaction, entitlement, now);
      }
    case PayPoints(o, user, entitlement, now) =>
      if PayOrderWithPoints(s, o, user, entitlement, now).Ok? {
        PayPointsKeeps(s, o, user, entitlement, now);
      }
    case GiveBack(o) =>
      if RefundOrder(s, o).Ok? {
        RefundKeeps(s, o);
      }
    case Close(now) => CloseKeeps(s, now);
    case Benefit(user, perk, now) =>
      if DeliverMembership(s, user, perk, now).Ok? {
        BenefitKeeps(s, user, perk, now);
      }
    case Traffic(inner) =>
      if Foreign(inner) {
        TrafficKeeps(s, inner);
      }
  }

  lemma ProductKeeps(s: Shop, id: nat, product: Product)
    requires Inv(s)
    ensures Inv(s.(catalog := s.catalog[id := product]))
  {
    hide L.Inv, Points.Inv, Booked, Delivered;
  }

  lemma TrafficKeeps(s: Shop, step: T.Step)
    requires Inv(s) && Foreign(step)
    ensures Inv(WithLedger(s, T.Apply(s.ledger, step)))
  {
    hide L.Inv, Points.Inv, Booked, Delivered, RowsSound, T.Apply, WithLedger, OriginsKept;
    T.ApplyKeeps(s.ledger, step);
    ForeignKeepsOrigins(s.ledger, step);
    WithLedgerKeeps(s, T.Apply(s.ledger, step));
  }
}
