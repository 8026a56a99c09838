/** What an order sells and delivers, what it costs, and what a refund takes back. */
module OrderLaws {
  import opened Basics
  import opened Sums
  import opened Points
  import opened Orders
  import opened OrderSafety
  import L = TrafficLedger
  import P = TrafficPlanner
  import M = Membership
  import T = TrafficRuns
  import OrderRuns
  import TrafficLaws

  // ---------- single calls ----------

  /** A new order is pending on the terms of its product; asking again with the same key changes nothing. */
  lemma OrderTakesProductTerms(
      s: Shop, o: nat, user: nat, product: nat, payment: Payment, key: string, now: int)
    requires CreateOrder(s, o, user, product, payment, key, now).Ok?
    ensures var s' := CreateOrder(s, o, user, product, payment, key, now).value;
      && key != "" && (exists p :: p in s'.orders && s'.orders[p].user == user && s'.orders[p].key == key)
      && (s' == s || (
            && o !in s.orders && o in s'.orders && s' == s.(orders := s.orders[o := s'.orders[o]])
            && product in s.catalog && s.catalog[product].active
            && (var order, p := s'.orders[o], s.catalog[product];
                && order.user == user && order.product == product && order.payment == payment && order.key == key
                && order.price == p.price && order.pointsPrice == p.pointsPrice
                && order.status == Pending && order.transaction == NoTransaction && order.created == now)))
      && CreateOrder(s', o, user, product, payment, key, now) == Ok(s')
  {
    var s' := CreateOrder(s, o, user, product, payment, key, now).value;
    if IdempotentOrders(s, user, key) != {} {
      var p :| p in IdempotentOrders(s, user, key);
      assert s'.orders[p].user == user && s'.orders[p].key == key;
    } else {
      assert o in IdempotentOrders(s', user, key);
    }
  }

  /** The reward is a tenth of the price, rounded down, and at least one point. */
  lemma RewardIsATenth(price: int)
    requires price > 0
    ensures RewardFor(price) >= 1
    ensures price >= 10 ==> 10 * RewardFor(price) <= price < 10 * (RewardFor(price) + 1)
    ensures price < 10 ==> RewardFor(price) == 1
  {
  }

  /** What a product of traffic becomes when order `o` delivers it at `now`. */
  function Sale(user: nat, p: Product, o: nat, now: int): L.Entitlement
    requires p.traffic > 0
  {
    L.Entitlement(user, p.traffic, p.traffic,
                  if p.validDays > 0 then now + p.validDays * 86400 else 253402300799, L.FromOrder(o))
  }

  /** A completed order grants the traffic of its product to its user, unspent, and nothing when there is none. */
  lemma CompleteDeliversTraffic(s: Shop, o: nat, transaction: Transaction, entitlement: nat, now: int, reward: bool)
    requires o in s.orders && s.orders[o].product in s.catalog
    requires CompleteOrder(s, o, transaction, entitlement, now, reward).Ok?
    ensures var s', order := CompleteOrder(s, o, transaction, entitlement, now, reward).value, s.orders[o];
      var p := s.catalog[order.product];
      && s'.ledger == s.ledger.(entitlements := s'.ledger.entitlements)
      && (p.traffic <= 0 ==> s'.ledger == s.ledger)
      && (p.traffic > 0 ==>
            && entitlement !in s.ledger.entitlements
            && s'.ledger.entitlements == s.ledger.entitlements[entitlement := Sale(order.user, p, o, now)])
  {
    hide AddPoints, M.ApplyBenefit;
  }

  /** Another order carries the same named transaction. */
  predicate TransactionUsed(s: Shop, o: nat, transaction: Transaction) {
    transaction != NoTransaction && exists p :: p in s.orders && s.orders[p].transaction == transaction && p != o
  }

  /** Every part of the delivery can be made. */
  predicate Deliverable(s: Shop, order: Order, p: Product, entitlement: nat, now: int) {
    && (p.traffic > 0 ==> entitlement !in s.ledger.entitlements)
    && (p.perk.Perk? ==> order.user in s.members && M.ApplyBenefit(s.members[order.user], p.perk.benefit, now).Ok?)
  }

  /** An order completes exactly when it is pending, its transaction is new, and all it sells can be delivered. */
  lemma CompletesExactly(s: Shop, o: nat, transaction: Transaction, entitlement: nat, now: int, reward: bool)
    requires Points.Inv(s.book) && o in s.orders && s.orders[o].product in s.catalog
    ensures CompleteOrder(s, o, transaction, entitlement, now, reward).Ok? <==>
      var order := s.orders[o];
      && order.status == Pending && !TransactionUsed(s, o, transaction)
      && Deliverable(s, order, s.catalog[order.product], entitlement, now)
      && (reward && order.price > 0 ==> order.user in s.book.balances)
  {
    hide Keys, Running, Distinct, Total;
    RewardBooksExactly(s.book, s.orders[o], o);
    hide AddPoints, Points.Inv, RewardFor;
  }

  lemma RewardBooksExactly(b: Book, order: Order, o: nat)
    requires Points.Inv(b)
    ensures order.price > 0 ==>
      (AddPoints(b, order.user, RewardFor(order.price), Reward(o)).Added? <==> order.user in b.balances)
  {
    hide Keys, Running, Distinct, Total;
  }

  /** It also applies the membership of its product, if it has one, and touches no other member. */
  lemma CompleteDeliversMembership(s: Shop, o: nat, transaction: Transaction, entitlement: nat, now: int, reward: bool)
    requires o in s.orders && s.orders[o].product in s.catalog
    requires CompleteOrder(s, o, transaction, entitlement, now, reward).Ok?
    ensures var s', order := CompleteOrder(s, o, transaction, entitlement, now, reward).value, s.orders[o];
      var p := s.catalog[order.product];
      && (p.perk.NoPerk? ==> s'.members == s.members)
      && (p.perk.Perk? ==>
            && order.user in s.members && s'.members.Keys == s.members.Keys
            && s'.members - {order.user} == s.members - {order.user}
            && M.ApplyBenefit(s.members[order.user], p.perk.benefit, now) == Ok(s'.members[order.user]))
  {
    hide AddPoints, M.ApplyBenefit;
    var s', order := CompleteOrder(s, o, transaction, entitlement, now, reward).value, s.orders[o];
    assert s'.members - {order.user} == s.members - {order.user};
  }

  /** The balances after one booking, if it was not booked before. */
  predicate Moved(b: Book, b': Book, user: nat, delta: int) {
    && user in b.balances && b.balances[user] + delta >= 0
    && b'.balances == b.balances[user := b.balances[user] + delta]
  }

  lemma FirstBookingMoves(b: Book, user: nat, delta: int, key: EventKey)
    requires key !in Keys(b.entries) && AddPoints(b, user, delta, key).Added?
    ensures Moved(b, AddPoints(b, user, delta, key).book, user, delta)
  {
  }

  /** Paying with points costs exactly the price of the order. */
  lemma PaymentCostsThePrice(s: Shop, o: nat, user: nat, entitlement: nat, now: int)
    requires OrderSafety.Inv(s) && PayOrderWithPoints(s, o, user, entitlement, now).Ok? && s.orders[o].status != Paid
    ensures var s', order := PayOrderWithPoints(s, o, user, entitlement, now).value, s.orders[o];
      && order.user == user && order.status == Pending
      && Moved(s.book, s'.book, user, -order.pointsPrice)
      && s'.orders == s.orders[o := order.(status := Paid, transaction := PointsPayment(o))]
  {
    hide CompleteOrder, AddPoints, L.Inv, Points.Inv, Delivered, RowsSound, Keys;
    var spent := Booking(s, user, -s.orders[o].pointsPrice, Spend(o)).value;
    CompleteChanges(spent, o, PointsPayment(o), entitlement, now, false);
    NotDueNotBooked(s.orders, s.book.entries, Spend(o));
    FirstBookingMoves(s.book, user, -s.orders[o].pointsPrice, Spend(o));
  }

  /** A completed sandbox order earns exactly its reward. */
  lemma SandboxEarnsTheReward(
      s: Shop, o: nat, user: nat, event: nat, transaction: Transaction, entitlement: nat, now: int)
    requires OrderSafety.Inv(s) && CompleteSandboxOrder(s, o, user, event, transaction, entitlement, now).Ok?
    requires s.orders[o].status != Paid && event !in s.events
    ensures var s', order := CompleteSandboxOrder(s, o, user, event, transaction, entitlement, now).value, s.orders[o];
      && s'.events == s.events + {event}
      && s'.orders == s.orders[o := order.(status := Paid, transaction := transaction)]
      && (order.price > 0 ==> Moved(s.book, s'.book, user, RewardFor(order.price)))
      && (order.price <= 0 ==> s'.book == s.book)
  {
    hide CompleteOrder, AddPoints, L.Inv, Points.Inv, Delivered, RowsSound, Keys;
    var order := s.orders[o];
    CompleteChanges(s.(events := s.events + {event}), o, transaction, entitlement, now, true);
    if order.price > 0 {
      NotDueNotBooked(s.orders, s.book.entries, Reward(o));
      FirstBookingMoves(s.book, user, RewardFor(order.price), Reward(o));
    }
  }

  /** A refund moves the balance back by what the order moved it, and takes only this order's entitlements. */
  lemma RefundUndoesTheOrder(s: Shop, o: nat)
    requires OrderSafety.Inv(s) && RefundOrder(s, o).Ok?
    ensures var s', order := RefundOrder(s, o).value, s.orders[o];
      && s'.orders == s.orders[o := order.(status := Status.Refunded)] && s'.members == s.members
      && (order.payment == WithPoints ==> Moved(s.book, s'.book, order.user, order.pointsPrice))
      && (order.payment == Sandbox && order.price > 0 ==> Moved(s.book, s'.book, order.user, -RewardFor(order.price)))
      && (order.payment == Sandbox && order.price <= 0 ==> s'.book == s.book)
      && (forall id :: id in s'.ledger.entitlements <==>
            id in s.ledger.entitlements && s.ledger.entitlements[id].origin != L.FromOrder(o))
      && (forall id :: id in s'.ledger.entitlements ==> s'.ledger.entitlements[id] == s.ledger.entitlements[id])
  {
    hide AddPoints, L.RevokeOrder, L.Inv, Points.Inv, Delivered, RowsSound, Keys;
    var order := s.orders[o];
    TrafficLaws.RevokeTakesOnlyItsOwn(s.ledger, o);
    if order.payment == WithPoints {
      NotDueNotBooked(s.orders, s.book.entries, Refund(o));
      FirstBookingMoves(s.book, order.user, order.pointsPrice, Refund(o));
    } else if order.price > 0 {
      NotDueNotBooked(s.orders, s.book.entries, RewardRefund(o));
      FirstBookingMoves(s.book, order.user, -RewardFor(order.price), RewardRefund(o));
    }
  }

  /** A day after its creation a pending order is closed; nothing else is. */
  lemma StaleOrdersClose(s: Shop, now: int, o: nat)
    requires o in s.orders
    ensures var s', order := CloseStale(s, now), s.orders[o];
      && s' == s.(orders := s'.orders) && s'.orders.Keys == s.orders.Keys
      && (order.status == Pending && order.created < now - 86400 ==> s'.orders[o] == order.(status := Closed))
      && (order.status != Pending || order.created >= now - 86400 ==> s'.orders[o] == order)
  {
  }

  /** A new user starts without a plan, without points and without traffic; a known one is left alone. */
  lemma NewUsersStartEmpty(s: Shop, user: nat)
    requires OrderSafety.Inv(s)
    ensures var s' := Register(s, user);
      && (user in s.members ==> s' == s)
      && (user !in s.members ==>
            && s'.members == s.members[user := M.Member(M.Unnamed, 0)]
            && s'.orders == s.orders && s'.catalog == s.catalog
            && s'.book.entries == s.book.entries && s'.ledger.entitlements == s.ledger.entitlements
            && (user !in s.ledger.accounts ==>
                  && s'.book.balances == s.book.balances[user := 0]
                  && s'.ledger.accounts == s.ledger.accounts[user := L.Account(0, P.Unset, 0)])
            && (user in s.ledger.accounts ==> s'.book.balances == s.book.balances && s'.ledger == s.ledger))
  {
    hide L.Inv, Points.Inv, Booked, Delivered, RowsSound;
    var s' := Register(s, user);
    if user !in s.members {
      assert s'.book.balances == if user in s.ledger.accounts then s.book.balances else s.book.balances[user := 0];
    }
  }

  /** An award is worth a hundred points the first time and nothing again. */
  lemma AwardsCountOnce(s: Shop, key: EventKey)
    requires (key.Welcome? || key.AdminProvision?) && OrderSafety.Inv(s) && key.user in s.book.balances
    ensures var s' := Apply(s, Award(key));
      && (key !in Keys(s.book.entries) ==> Moved(s.book, s'.book, key.user, 100))
      && (key in Keys(s.book.entries) ==> s' == s) && Apply(s', Award(key)) == s'
  {
    hide L.Inv, Delivered, RowsSound, Booked, Running, Distinct, Total, Keys;
    var s' := Apply(s, Award(key));
    if key !in Keys(s.book.entries) {
      KeysAppend(s.book.entries, Entry(key.user, 100, s.book.balances[key.user] + 100, key));
    }
  }

  // ---------- deliveries over whole runs ----------

  /** The traffic an order would sell now. */
  function Sold(s: Shop, o: nat): int {
    if o in s.orders && s.orders[o].product in s.catalog then s.catalog[s.orders[o].product].traffic else 0
  }

  /** For each paid order the traffic its product had when it was paid, whatever became of the catalog. */
  function NextBought(s: Shop, step: Step, bought: map<nat, int>): map<nat, int> {
    var s' := Apply(s, step);
    map o | o in s'.orders && s'.orders[o].status == Paid ::
      if o in s.orders && s.orders[o].status == Paid && o in bought then bought[o] else Sold(s, o)
  }

  function Bought(s: Shop, steps: seq<Step>, bought: map<nat, int>): map<nat, int>
    decreases steps
  {
    if steps == [] then bought else Bought(Apply(s, steps[0]), steps[1..], NextBought(s, steps[0], bought))
  }

  /** Entitlement `id` is what order `o` delivered. */
  predicate DeliveredAs(l: L.Ledger, id: nat, o: nat, user: nat, bytes: int) {
    && id in l.entitlements && l.entitlements[id].origin == L.FromOrder(o)
    && l.entitlements[id].user == user && l.entitlements[id].amount == bytes
  }

  /** Every paid order has exactly the traffic it sold, in one entitlement, or none if it sold none. */
  ghost predicate Fulfilled(s: Shop, bought: map<nat, int>) {
    forall o :: o in s.orders && s.orders[o].status == Paid ==> o in bought && FulfilledAt(s, o, bought[o])
  }

  ghost predicate FulfilledAt(s: Shop, o: nat, bytes: int)
    requires o in s.orders
  {
    if bytes > 0 then exists id :: DeliveredAs(s.ledger, id, o, s.orders[o].user, bytes)
    else forall id :: id in s.ledger.entitlements ==> s.ledger.entitlements[id].origin != L.FromOrder(o)
  }

  /** The entitlements of order `o` are the same rows with the same owner and size. */
  ghost predicate SameDelivery(l: L.Ledger, l': L.Ledger, o: nat) {
    && (forall id :: id in l.entitlements && l.entitlements[id].origin == L.FromOrder(o) ==>
          DeliveredAs(l', id, o, l.entitlements[id].user, l.entitlements[id].amount))
    && (forall id :: id in l'.entitlements && l'.entitlements[id].origin == L.FromOrder(o) ==>
          id in l.entitlements && l.entitlements[id].origin == L.FromOrder(o))
  }

  lemma ForeignKeepsDelivery(l: L.Ledger, step: T.Step, o: nat)
    requires Foreign(step)
    ensures SameDelivery(l, T.Apply(l, step), o)
  {
    hide L.Slots, L.LegacyReserved, L.Payable, L.Balance, L.Obstacle;
  }

  lemma CompleteKeepsOthers(
      s: Shop, p: nat, transaction: Transaction, entitlement: nat, now: int, reward: bool, o: nat)
    requires p in s.orders && s.orders[p].product in s.catalog && p != o
    requires CompleteOrder(s, p, transaction, entitlement, now, reward).Ok?
    ensures SameDelivery(s.ledger, CompleteOrder(s, p, transaction, entitlement, now, reward).value.ledger, o)
  {
    hide CompleteOrder;
    CompleteDeliversTraffic(s, p, transaction, entitlement, now, reward);
  }

  /** No step touches what a paid order delivered while it stays paid. */
  lemma StepKeepsDelivery(s: Shop, step: Step, o: nat)
    requires OrderSafety.Inv(s) && o in s.orders && s.orders[o].status == Paid
    requires o in Apply(s, step).orders && Apply(s, step).orders[o].status == Paid
    ensures SameDelivery(s.ledger, Apply(s, step).ledger, o) && Apply(s, step).orders[o].user == s.orders[o].user
  {
    hide CompleteOrder, AddPoints, T.Apply, L.RevokeOrder, M.ApplyBenefit, OrderSafety.Inv;
    match step
    case PaySandbox(p, user, event, transaction, entitlement, now) =>
      if CompleteSandboxOrder(s, p, user, event, transaction, entitlement, now).Ok? && s.orders[p].status != Paid
        && event !in s.events {
        var noted := s.(events := s.events + {event});
        CompleteChanges(noted, p, transaction, entitlement, now, true);
        CompleteKeepsOthers(noted, p, transaction, entitlement, now, true, o);
      }
    case PayPoints(p, user, entitlement, now) =>
      if PayOrderWithPoints(s, p, user, entitlement, now).Ok? && s.orders[p].status != Paid {
        var spent := Booking(s, user, -s.orders[p].pointsPrice, Spend(p)).value;
        CompleteChanges(spent, p, PointsPayment(p), entitlement, now, false);
        CompleteKeepsOthers(spent, p, PointsPayment(p), entitlement, now, false, o);
      }
    case GiveBack(p) =>
      if RefundOrder(s, p).Ok? {
        TrafficLaws.RevokeTakesOnlyItsOwn(s.ledger, p);
      }
    case Traffic(inner) =>
      if Foreign(inner) {
        ForeignKeepsDelivery(s.ledger, inner, o);
      }
    case _ =>
  }

  lemma CompleteFulfils(s: Shop, o: nat, transaction: Transaction, entitlement: nat, now: int, reward: bool)
    requires Delivered(s.orders, s.ledger.entitlements) && o in s.orders && s.orders[o].product in s.catalog
    requires CompleteOrder(s, o, transaction, entitlement, now, reward).Ok?
    ensures var s' := CompleteOrder(s, o, transaction, entitlement, now, reward).value;
      o in s'.orders && FulfilledAt(s', o, Sold(s, o))
  {
    CompleteChanges(s, o, transaction, entitlement, now, reward);
    CompleteDeliversTraffic(s, o, transaction, entitlement, now, reward);
    hide CompleteOrder, AddPoints;
    var s' := CompleteOrder(s, o, transaction, entitlement, now, reward).value;
    if Sold(s, o) > 0 {
      assert DeliveredAs(s'.ledger, entitlement, o, s'.orders[o].user, Sold(s, o));
    }
  }

  /** An order that a step turns paid has just been delivered what its product sells. */
  lemma StepFulfils(s: Shop, step: Step, o: nat)
    requires OrderSafety.Inv(s) && (o in s.orders ==> s.orders[o].status != Paid)
    requires o in Apply(s, step).orders && Apply(s, step).orders[o].status == Paid
    ensures FulfilledAt(Apply(s, step), o, Sold(s, o))
  {
    hide CompleteOrder, AddPoints, T.Apply, L.RevokeOrder, M.ApplyBenefit, FulfilledAt, Sold;
    hide L.Inv, Points.Inv, Booked, Delivered;
    match step
    case PaySandbox(p, user, event, transaction, entitlement, now) =>
      if CompleteSandboxOrder(s, p, user, event, transaction, entitlement, now).Ok? && s.orders[p].status != Paid
        && event !in s.events {
        var noted := s.(events := s.events + {event});
        CompleteChanges(noted, p, transaction, entitlement, now, true);
        CompleteFulfils(noted, p, transaction, entitlement, now, true);
        SameSale(s, noted, p);
      }
    case PayPoints(p, user, entitlement, now) =>
      if PayOrderWithPoints(s, p, user, entitlement, now).Ok? && s.orders[p].status != Paid {
        var spent := Booking(s, user, -s.orders[p].pointsPrice, Spend(p)).value;
        CompleteChanges(spent, p, PointsPayment(p), entitlement, now, false);
        CompleteFulfils(spent, p, PointsPayment(p), entitlement, now, false);
        SameSale(s, spent, p);
      }
    case _ =>
  }

  lemma SameSale(s: Shop, s': Shop, o: nat)
    requires s'.orders == s.orders && s'.catalog == s.catalog
    ensures Sold(s', o) == Sold(s, o)
  {
  }

  lemma DeliveryCarriesOver(s: Shop, s': Shop, o: nat, bytes: int)
    requires o in s.orders && o in s'.orders && s'.orders[o].user == s.orders[o].user
    requires SameDelivery(s.ledger, s'.ledger, o) && FulfilledAt(s, o, bytes)
    ensures FulfilledAt(s', o, bytes)
  {
    if bytes > 0 {
      var id :| DeliveredAs(s.ledger, id, o, s.orders[o].user, bytes);
      assert DeliveredAs(s'.ledger, id, o, s'.orders[o].user, bytes);
    }
  }

  lemma ApplyFulfils(s: Shop, step: Step, bought: map<nat, int>)
    requires OrderSafety.Inv(s) && Fulfilled(s, bought)
    ensures Fulfilled(Apply(s, step), NextBought(s, step, bought))
  {
    hide OrderSafety.Inv, Apply, FulfilledAt, SameDelivery, Sold;
    var s' := Apply(s, step);
    forall o | o in s'.orders && s'.orders[o].status == Paid
      ensures FulfilledAt(s', o, NextBought(s, step, bought)[o])
    {
      if o in s.orders && s.orders[o].status == Paid {
        StepKeepsDelivery(s, step, o);
        DeliveryCarriesOver(s, s', o, bought[o]);
      } else {
        StepFulfils(s, step, o);
      }
    }
  }

  /**
   Over every run, each order that is paid at the end has exactly the traffic its product
   sold when it was paid, although the catalog, the balances and the other orders moved on.
   */
  lemma {:induction false} PaidOrdersAreFulfilled(s: Shop, steps: seq<Step>, bought: map<nat, int>)
    requires OrderSafety.Inv(s) && Fulfilled(s, bought)
    ensures Fulfilled(Run(s, steps), Bought(s, steps, bought))
    decreases steps
  {
    if steps != [] {
      ApplyFulfils(s, steps[0], bought);
      ApplyKeeps(s, steps[0]);
      hide Apply, OrderSafety.Inv, Fulfilled, NextBought;
      PaidOrdersAreFulfilled(Apply(s, steps[0]), steps[1..], NextBought(s, steps[0], bought));
    }
  }

  /** So a paid order has one entitlement of that size and owner if it sold traffic, and none if it did not. */
  lemma OneDeliveryEach(s: Shop, steps: seq<Step>, bought: map<nat, int>, o: nat)
    requires OrderSafety.Inv(s) && Fulfilled(s, bought)
    requires o in Run(s, steps).orders && Run(s, steps).orders[o].status == Paid
    ensures var s', sold := Run(s, steps), Bought(s, steps, bought);
      && o in sold
      && |L.OrderEntitlements(s'.ledger, o)| == (if sold[o] > 0 then 1 else 0)
      && forall id :: id in L.OrderEntitlements(s'.ledger, o) ==>
           DeliveredAs(s'.ledger, id, o, s'.orders[o].user, sold[o])
  {
    hide Run, Bought, L.Inv, Points.Inv, Booked, RowsSound;
    PaidOrdersAreFulfilled(s, steps, bought);
    OrderRuns.RunKeeps(s, steps);
    var s', sold := Run(s, steps), Bought(s, steps, bought);
    var ids := L.OrderEntitlements(s'.ledger, o);
    if sold[o] > 0 {
      var id: nat :| DeliveredAs(s'.ledger, id, o, s'.orders[o].user, sold[o]);
      assert ids == {id};
    } else {
      assert ids == {};
    }
  }

  // ---------- transactions ----------

  /** A provider's transaction pays for one order. */
  ghost predicate TransactionsUnique(s: Shop) {
    forall o, p :: o in s.orders && p in s.orders && o != p && s.orders[o].transaction != NoTransaction ==>
      s.orders[o].transaction != s.orders[p].transaction
  }

  lemma CompleteKeepsUnique(s: Shop, o: nat, transaction: Transaction, entitlement: nat, now: int, reward: bool)
    requires TransactionsUnique(s) && o in s.orders && s.orders[o].product in s.catalog
    requires CompleteOrder(s, o, transaction, entitlement, now, reward).Ok?
    ensures TransactionsUnique(CompleteOrder(s, o, transaction, entitlement, now, reward).value)
  {
    CompleteChanges(s, o, transaction, entitlement, now, reward);
    hide AddPoints, DeliverTraffic, DeliverMembership, Booking;
    assert !TransactionUsed(s, o, transaction);
  }

  lemma ApplyKeepsUnique(s: Shop, step: Step)
    requires TransactionsUnique(s)
    ensures TransactionsUnique(Apply(s, step))
  {
    hide CompleteOrder, AddPoints, T.Apply, L.RevokeOrder, M.ApplyBenefit;
    match step
    case PaySandbox(o, user, event, transaction, entitlement, now) =>
      if CompleteSandboxOrder(s, o, user, event, transaction, entitlement, now).Ok? && s.orders[o].status != Paid
        && event !in s.events {
        CompleteKeepsUnique(s.(events := s.events + {event}), o, transaction, entitlement, now, true);
      }
    case PayPoints(o, user, entitlement, now) =>
      if PayOrderWithPoints(s, o, user, entitlement, now).Ok? && s.orders[o].status != Paid {
        var spent := Booking(s, user, -s.orders[o].pointsPrice, Spend(o)).value;
        CompleteKeepsUnique(spent, o, PointsPayment(o), entitlement, now, false);
      }
    case _ =>
  }

  /** No run lets one transaction pay for two orders. */
  lemma {:induction false} TransactionsStayUnique(s: Shop, steps: seq<Step>)
    requires TransactionsUnique(s)
    ensures TransactionsUnique(Run(s, steps))
    decreases steps
  {
    hide Apply, TransactionsUnique;
    if steps != [] {
      ApplyKeepsUnique(s, steps[0]);
      TransactionsStayUnique(Apply(s, steps[0]), steps[1..]);
    }
  }
}
