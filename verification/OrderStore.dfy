/**
 The store methods behind orders, table by table. An inner step may stop half-way; the
 public methods roll back, and each is proved against the transaction of the same name.
 */
module OrderStore {
  import opened Basics
  import opened Points
  import opened Orders
  import L = TrafficLedger
  import M = Membership

  class Store {
    var catalog: map<nat, Product>
    var orders: map<nat, Order>
    var events: set<nat>
    var balances: map<nat, int>
    var entries: seq<Entry>
    var members: map<nat, M.Member>
    var ledger: L.Ledger

    function State(): Shop
      reads this
    {
      Shop(catalog, orders, events, Book(balances, entries), members, ledger)
    }

    constructor (s: Shop)
      ensures State() == s
    {
      catalog, orders, events, members, ledger := s.catalog, s.orders, s.events, s.members, s.ledger;
      balances, entries := s.book.balances, s.book.entries;
    }

    method Rollback(s: Shop)
      modifies this
      ensures State() == s
    {
      catalog, orders, events, members, ledger := s.catalog, s.orders, s.events, s.members, s.ledger;
      balances, entries := s.book.balances, s.book.entries;
    }

    method AddPointsTx(user: nat, delta: int, key: EventKey) returns (r: Result<(), Error>)
      modifies this`balances, this`entries
      ensures match Booking(old(State()), user, delta, key)
        case Ok(s) => r == Ok(()) && State() == s
        case Err(e) => r == Err(e) && State() == old(State())
    {
      if user !in balances {
        return Err(Internal);
      }
      var next := balances[user] + delta;
      if next < 0 {
        return Err(QuotaExceeded);
      }
      if key in Keys(entries) {
        return Ok(());
      }
      entries := entries + [Entry(user, delta, next, key)];
      balances := balances[user := next];
      return Ok(());
    }

    method ApplyVIPBenefitTx(user: nat, perk: Perk, now: int) returns (r: Result<(), Error>)
      modifies this`members
      ensures match DeliverMembership(old(State()), user, perk, now)
        case Ok(s) => r == Ok(()) && State() == s
        case Err(e) => r == Err(e) && State() == old(State())
    {
      if perk.NoPerk? {
        return Ok(());
      }
      var normal := M.Normalize(perk.benefit);
      if normal.Err? {
        return Err(Invalid);
      }
      if user !in members {
        return Err(NotFound);
      }
      var current, plan := members[user], normal.value.plan;
      if current.plan == M.Lifetime {
        assert members[user := current] == members;
        return Ok(());
      }
      if plan == M.Lifetime {
        members := members[user := M.Member(M.Lifetime, 0)];
        return Ok(());
      }
      var base, active := now, current.expires > now;
      if active {
        base := current.expires;
      }
      var seconds := normal.value.days * M.DAY;
      if seconds <= 0 || base > MAX_INT64 - seconds {
        return Err(Invalid);
      }
      if active && M.Rank(current.plan) > M.Rank(plan) {
        plan := current.plan;
      }
      members := members[user := M.Member(plan, base + seconds)];
      return Ok(());
    }

    /** May leave a half-delivered order behind when it fails. */
    method CompleteOrderTx(
        o: nat, transaction: Transaction, entitlement: nat, now: int, reward: bool) returns (r: Result<(), Error>)
      requires o in orders && orders[o].product in catalog
      modifies this
      ensures match CompleteOrder(old(State()), o, transaction, entitlement, now, reward)
        case Ok(s) => r == Ok(()) && State() == s
        case Err(e) => r == Err(e)
    {
      hide AddPoints, DeliverMembership;
      var order := orders[o];
      var product := catalog[order.product];
      if order.status != Pending {
        return Err(Conflict);
      }
      if TransactionTaken(State(), o, transaction) {
        return Err(Internal);
      }
      orders := orders[o := order.(status := Paid, transaction := transaction)];
      if product.traffic > 0 {
        var expires := PERMANENT;
        if product.validDays > 0 {
          expires := now + product.validDays * M.DAY;
        }
        var granted := L.Grant(ledger, entitlement, order.user, product.traffic, expires, L.FromOrder(o));
        if granted.Err? {
          return Err(Internal);
        }
        ledger := granted.value;
      }
      var promoted := ApplyVIPBenefitTx(order.user, product.perk, now);
      if promoted.Err? {
        return promoted;
      }
      if reward && order.price > 0 {
        r := AddPointsTx(order.user, RewardFor(order.price), Reward(o));
        return;
      }
      return Ok(());
    }

    method CompleteSandboxOrder(
        o: nat, user: nat, event: nat, transaction: Transaction, entitlement: nat, now: int)
      returns (r: Result<(), Error>)
      modifies this
      ensures match Orders.CompleteSandboxOrder(old(State()), o, user, event, transaction, entitlement, now)
        case Ok(s) => r == Ok(()) && State() == s
        case Err(e) => r == Err(e) && State() == old(State())
    {
      hide CompleteOrder;
      if o !in orders || orders[o].user != user {
        return Err(NotFound);
      }
      if orders[o].product !in catalog {
        return Err(Internal);
      }
      if orders[o].payment != Sandbox {
        return Err(Unauthorized);
      }
      if orders[o].status == Paid || event in events {
        return Ok(());
      }
      var before := State();
      events := events + {event};
      r := CompleteOrderTx(o, transaction, entitlement, now, true);
      if r.Err? {
        Rollback(before);
      }
    }

    method PayOrderWithPoints(o: nat, user: nat, entitlement: nat, now: int) returns (r: Result<(), Error>)
      modifies this
      ensures match Orders.PayOrderWithPoints(old(State()), o, user, entitlement, now)
        case Ok(s) => r == Ok(()) && State() == s
        case Err(e) => r == Err(e) && State() == old(State())
    {
      hide CompleteOrder, AddPoints;
      if o !in orders || orders[o].user != user {
        return Err(NotFound);
      }
      if orders[o].product !in catalog {
        return Err(Internal);
      }
      if orders[o].payment != WithPoints {
        return Err(Unauthorized);
      }
      if orders[o].status == Paid {
        return Ok(());
      }
      var before := State();
      r := AddPointsTx(user, -orders[o].pointsPrice, Spend(o));
      if r.Err? {
        return;
      }
      r := CompleteOrderTx(o, PointsPayment(o), entitlement, now, false);
      if r.Err? {
        Rollback(before);
      }
    }

    method RefundOrder(o: nat) returns (r: Result<(), Error>)
      modifies this
      ensures match Orders.RefundOrder(old(State()), o)
        case Ok(s) => r == Ok(()) && State() == s
        case Err(e) => r == Err(e) && State() == old(State())
    {
      hide AddPoints, L.RevokeOrder;
      if o !in orders {
        return Err(NotFound);
      }
      var order := orders[o];
      if order.status != Paid || (order.payment != Sandbox && order.payment != WithPoints) {
        return Err(Conflict);
      }
      if order.product !in catalog {
        return Err(Internal);
      }
      if catalog[order.product].perk.Perk? {
        return Err(Conflict);
      }
      var revoked := L.RevokeOrder(ledger, o);
      if revoked.Err? {
        return Err(QuotaExceeded);
      }
      if order.payment == WithPoints {
        r := AddPointsTx(order.user, order.pointsPrice, Refund(o));
        if r.Err? {
          return;
        }
      } else if order.price > 0 {
        var withdrawn := AddPointsTx(order.user, -RewardFor(order.price), RewardRefund(o));
        if withdrawn.Err? {
          return Err(QuotaExceeded);
        }
      }
      ledger := revoked.value;
      orders := orders[o := order.(status := Refunded)];
      return Ok(());
    }
  }
}
