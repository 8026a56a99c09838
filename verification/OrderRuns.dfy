/** Whole runs of the shop: what the book, the orders and the entitlements agree on. */
module OrderRuns {
  import opened Basics
  import opened Sums
  import opened Points
  import opened Orders
  import opened OrderSafety
  import L = TrafficLedger
  import M = Membership
  import T = TrafficRuns

  lemma {:induction false} RunKeeps(s: Shop, steps: seq<Step>)
    requires OrderSafety.Inv(s)
    ensures OrderSafety.Inv(Run(s, steps))
    decreases steps
  {
    hide OrderSafety.Inv, Apply;
    if steps != [] {
      ApplyKeeps(s, steps[0]);
      RunKeeps(Apply(s, steps[0]), steps[1..]);
    }
  }

  /** Before anything happened: products only. */
  lemma EmptyShopIsSound(catalog: map<nat, Product>)
    ensures OrderSafety.Inv(Shop(catalog, map[], {}, Book(map[], []), map[], L.Ledger(map[], map[], map[], map[])))
  {
    forall user: nat, source ensures L.Allocated(map[], user, L.Reserved, source) == 0 {}
  }

  /**
   After any run: a balance is the sum of its entries and never negative; an order that is
   not paid has no net effect, a paid one exactly one spend or reward, and only a paid order
   has an entitlement.
   */
  lemma PointsAndOrdersAgree(s: Shop, steps: seq<Step>, user: nat, o: nat)
    requires OrderSafety.Inv(s)
    ensures var s' := Run(s, steps); var entries := s'.book.entries;
      && (user in s'.book.balances ==> s'.book.balances[user] == Total(entries, user) >= 0)
      && (forall i :: 0 <= i < |entries| ==> entries[i].after == Total(entries[..i + 1], entries[i].user) >= 0)
      && (forall i, j :: 0 <= i < j < |entries| ==> entries[i].key != entries[j].key)
      && (o in s'.orders ==> Effect(entries, o) == Net(s'.orders[o]))
      && (o !in s'.orders || s'.orders[o].status == Pending || s'.orders[o].status == Closed ==>
            forall i :: 0 <= i < |entries| ==> !Concerns(entries[i].key, o))
      && (o !in s'.orders || s'.orders[o].status != Paid ==> L.OrderEntitlements(s'.ledger, o) == {})
      && |L.OrderEntitlements(s'.ledger, o)| <= 1
  {
    hide Run, L.Inv, RowsSound, Total, Effect;
    RunKeeps(s, steps);
    var s' := Run(s, steps);
    forall i | 0 <= i < |s'.book.entries| ensures Matches(s'.orders, s'.book.entries[i]) {}
    AtMostOne(L.OrderEntitlements(s'.ledger, o));
  }

  lemma AtMostOne(ids: set<nat>)
    requires forall i, j :: i in ids && j in ids ==> i == j
    ensures |ids| <= 1
  {
    if ids != {} {
      var i :| i in ids;
      assert ids == {i};
    }
  }

  // ---------- the balance in closed form ----------

  /** Points given for reasons other than orders. */
  function Awarded(entries: seq<Entry>, user: nat): int {
    if entries == [] then 0 else
      var last := entries[|entries| - 1];
      Awarded(entries[..|entries| - 1], user)
      + if last.user == user && (last.key.Welcome? || last.key.AdminProvision?) then last.delta else 0
  }

  function EffectPart(orders: map<nat, Order>, entries: seq<Entry>, user: nat, o: nat): int {
    if o in orders && orders[o].user == user then Effect(entries, o) else 0
  }

  function EffectAt(orders: map<nat, Order>, entries: seq<Entry>, user: nat): nat -> int {
    (o: nat) => EffectPart(orders, entries, user, o)
  }

  function NetAt(orders: map<nat, Order>, user: nat): nat -> int {
    (o: nat) => if o in orders && orders[o].user == user then Net(orders[o]) else 0
  }

  /** One more entry moves the sum over orders by its own delta. */
  lemma EffectsMove(orders: map<nat, Order>, front: seq<Entry>, e: Entry, user: nat)
    requires Matches(orders, e)
    ensures Sum(orders.Keys, EffectAt(orders, front + [e], user))
         == Sum(orders.Keys, EffectAt(orders, front, user))
          + if e.user == user && !e.key.Welcome? && !e.key.AdminProvision? then e.delta else 0
  {
    var f, g := EffectAt(orders, front, user), EffectAt(orders, front + [e], user);
    forall o | o in orders
      ensures EffectPart(orders, front + [e], user, o) == EffectPart(orders, front, user, o)
        + if orders[o].user == user && Concerns(e.key, o) then e.delta else 0
    {
      EffectAppend(front, e, o);
    }
    hide Effect;
    if e.key.Welcome? || e.key.AdminProvision? {
      SumCongruent(orders.Keys, f, g);
    } else {
      SumChange(orders.Keys, f, orders.Keys, g, e.key.order);
    }
  }

  lemma {:induction false} TotalSplits(orders: map<nat, Order>, entries: seq<Entry>, user: nat)
    requires AllMatch(orders, entries)
    ensures Total(entries, user) == Awarded(entries, user) + Sum(orders.Keys, EffectAt(orders, entries, user))
  {
    if entries == [] {
      SumZero(orders.Keys, EffectAt(orders, entries, user));
    } else {
      var front, e := entries[..|entries| - 1], entries[|entries| - 1];
      assert entries == front + [e] && Matches(orders, e);
      TotalSplits(orders, front, user);
      EffectsMove(orders, front, e, user);
    }
  }

  /** A balance is what was awarded plus, for each paid order, its one spend or reward. */
  lemma BalanceInClosedForm(s: Shop, steps: seq<Step>, user: nat)
    requires OrderSafety.Inv(s) && user in Run(s, steps).book.balances
    ensures var s' := Run(s, steps);
      s'.book.balances[user] == Awarded(s'.book.entries, user) + Sum(s'.orders.Keys, NetAt(s'.orders, user))
  {
    hide Run, L.Inv, RowsSound, Total, Effect, Delivered, Awarded, Sum;
    RunKeeps(s, steps);
    var s' := Run(s, steps);
    TotalSplits(s'.orders, s'.book.entries, user);
    SumCongruent(s'.orders.Keys, EffectAt(s'.orders, s'.book.entries, user), NetAt(s'.orders, user));
  }

  // ---------- the life of an order ----------

  predicate Later(before: Status, after: Status) {
    || after == before
    || (before == Pending)
    || (before == Paid && after == Status.Refunded)
  }

  predicate IsPrefix(a: seq<Entry>, b: seq<Entry>) {
    |a| <= |b| && a == b[..|a|]
  }

  /** Terms are fixed at creation, statuses only move forward, the book only grows. */
  ghost predicate Evolves(s: Shop, s': Shop) {
    && IsPrefix(s.book.entries, s'.book.entries) && s.events <= s'.events
    && (forall o :: o in s.orders ==>
          o in s'.orders && SameTerms(s.orders[o], s'.orders[o]) && Later(s.orders[o].status, s'.orders[o].status))
  }

  lemma BookGrows(b: Book, user: nat, delta: int, key: EventKey)
    requires AddPoints(b, user, delta, key).Added?
    ensures IsPrefix(b.entries, AddPoints(b, user, delta, key).book.entries)
  {
  }

  lemma CompleteEvolves(s: Shop, o: nat, transaction: Transaction, entitlement: nat, now: int, reward: bool)
    requires o in s.orders && s.orders[o].product in s.catalog
    requires CompleteOrder(s, o, transaction, entitlement, now, reward).Ok?
    ensures Evolves(s, CompleteOrder(s, o, transaction, entitlement, now, reward).value)
  {
    hide CompleteOrder, AddPoints, L.Grant;
    CompleteChanges(s, o, transaction, entitlement, now, reward);
    if reward && s.orders[o].price > 0 {
      BookGrows(s.book, s.orders[o].user, RewardFor(s.orders[o].price), Reward(o));
    }
  }

  lemma PayPointsEvolves(s: Shop, o: nat, user: nat, entitlement: nat, now: int)
    requires PayOrderWithPoints(s, o, user, entitlement, now).Ok?
    ensures Evolves(s, PayOrderWithPoints(s, o, user, entitlement, now).value)
  {
    hide CompleteOrder, AddPoints;
    if s.orders[o].status != Paid {
      BookGrows(s.book, user, -s.orders[o].pointsPrice, Spend(o));
      CompleteEvolves(Booking(s, user, -s.orders[o].pointsPrice, Spend(o)).value, o, PointsPayment(o),
        entitlement, now, false);
    }
  }

  lemma RefundEvolves(s: Shop, o: nat)
    requires RefundOrder(s, o).Ok?
    ensures Evolves(s, RefundOrder(s, o).value)
  {
    hide AddPoints, L.RevokeOrder;
    var order := s.orders[o];
    if order.payment == WithPoints {
      BookGrows(s.book, order.user, order.pointsPrice, Refund(o));
    } else if order.price > 0 {
      BookGrows(s.book, order.user, -RewardFor(order.price), RewardRefund(o));
    }
  }

  lemma ApplyEvolves(s: Shop, step: Step)
    ensures Evolves(s, Apply(s, step))
  {
    hide CompleteOrder, PayOrderWithPoints, RefundOrder, AddPoints, T.Apply, L.OpenAccount;
    match step
    case PaySandbox(o, user, event, transaction, entitlement, now) =>
      if CompleteSandboxOrder(s, o, user, event, transaction, entitlement, now).Ok? && s.orders[o].status != Paid
        && event !in s.events {
        CompleteEvolves(s.(events := s.events + {event}), o, transaction, entitlement, now, true);
      }
    case PayPoints(o, user, entitlement, now) =>
      if PayOrderWithPoints(s, o, user, entitlement, now).Ok? {
        PayPointsEvolves(s, o, user, entitlement, now);
      }
    case GiveBack(o) =>
      if RefundOrder(s, o).Ok? {
        RefundEvolves(s, o);
      }
    case Award(key) =>
      if (key.Welcome? || key.AdminProvision?) && Booking(s, key.user, 100, key).Ok? {
        BookGrows(s.book, key.user, 100, key);
      }
    case _ =>
  }

  lemma EvolvesTransitive(a: Shop, b: Shop, c: Shop)
    requires Evolves(a, b) && Evolves(b, c)
    ensures Evolves(a, c)
  {
    assert a.book.entries == c.book.entries[..|b.book.entries|][..|a.book.entries|];
  }

  /** No run changes an order's terms, reopens it or rewrites the book. */
  lemma {:induction false} RunEvolves(s: Shop, steps: seq<Step>)
    ensures Evolves(s, Run(s, steps))
    decreases steps
  {
    if steps != [] {
      hide Apply, Evolves;
      ApplyEvolves(s, steps[0]);
      RunEvolves(Apply(s, steps[0]), steps[1..]);
      EvolvesTransitive(s, Apply(s, steps[0]), Run(s, steps));
    }
  }

  // ---------- single calls ----------

  predicate TrafficIntact(l: L.Ledger, o: nat) {
    forall id :: id in L.OrderEntitlements(l, o) ==>
      && l.entitlements[id].remaining == l.entitlements[id].amount
      && forall u :: u in l.charges && l.charges[u].status == L.Reserved ==> !L.Names(l.charges[u], id)
  }

  function PointsOf(b: Book, user: nat): int {
    if user in b.balances then b.balances[user] else 0
  }

  /** A refund goes through exactly when nothing bought was used and the points can be put right. */
  lemma RefundSucceedsExactly(s: Shop, o: nat)
    requires OrderSafety.Inv(s)
    ensures RefundOrder(s, o).Ok? <==>
      && o in s.orders && s.orders[o].status == Paid
      && s.catalog[s.orders[o].product].perk.NoPerk?
      && TrafficIntact(s.ledger, o)
      && PointsOf(s.book, s.orders[o].user) >= Net(s.orders[o])
  {
    hide L.Inv, Total, Effect, Delivered, Running, Distinct;
    if o in s.orders && s.orders[o].status == Paid {
      var order := s.orders[o];
      var key := if order.payment == WithPoints then Spend(o) else Reward(o);
      if Due(order, key) {
        assert key in Keys(s.book.entries);
      }
      assert TrafficIntact(s.ledger, o) <==> L.RevokeOrder(s.ledger, o).Ok?;
      hide L.RevokeOrder, TrafficIntact, Keys;
    }
  }

  /** Repeating a payment that went through changes nothing. */
  lemma PaymentsRepeat(s: Shop, o: nat, user: nat, entitlement: nat, now: int, entitlement': nat, now': int)
    requires PayOrderWithPoints(s, o, user, entitlement, now).Ok?
    ensures var s' := PayOrderWithPoints(s, o, user, entitlement, now).value;
      PayOrderWithPoints(s', o, user, entitlement', now') == Ok(s')
  {
    hide CompleteOrder, AddPoints;
    if s.orders[o].status != Paid {
      CompleteChanges(Booking(s, user, -s.orders[o].pointsPrice, Spend(o)).value, o, PointsPayment(o),
        entitlement, now, false);
    }
  }
}
