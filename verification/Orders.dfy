/**
 Orders and what they deliver: points, upload traffic and membership. Every
 transaction returns the shop it commits, or an error that commits nothing.
 */
module Orders {
  import opened Basics
  import opened Sums
  import opened Points
  import L = TrafficLedger
  import M = Membership
  import T = TrafficRuns

  const PERMANENT := 253402300799
  const STALE := 24 * 3600

  datatype Payment = Sandbox | WithPoints | Wechat | Alipay

  datatype Status = Pending | Paid | Closed | Refunded

  /** Unique among orders unless it is `NoTransaction`. */
  datatype Transaction = NoTransaction | Provider(id: nat) | PointsPayment(order: nat)

  datatype Perk = NoPerk | Perk(benefit: M.Benefit)

  datatype Product = Product(traffic: int, validDays: int, perk: Perk, price: int, pointsPrice: int, active: bool)

  datatype Order = Order(
    user: nat, product: nat, price: int, pointsPrice: int, payment: Payment,
    status: Status, transaction: Transaction, created: int, key: string)

  datatype Shop = Shop(
    catalog: map<nat, Product>,
    orders: map<nat, Order>,
    events: set<nat>,
    book: Book,
    members: map<nat, M.Member>,
    ledger: L.Ledger)

  datatype Error = NotFound | Unauthorized | Conflict | QuotaExceeded | Invalid | Internal

  function RewardFor(price: int): int
    requires price > 0
  {
    Max(1, price / 10)
  }

  function Booking(s: Shop, user: nat, delta: int, key: EventKey): Result<Shop, Error> {
    match AddPoints(s.book, user, delta, key)
    case NoAccount => Err(Internal)
    case Short => Err(QuotaExceeded)
    case Added(book) => Ok(s.(book := book))
  }

  function IdempotentOrders(s: Shop, user: nat, key: string): set<nat> {
    set o | o in s.orders && s.orders[o].user == user && s.orders[o].key == key
  }

  /** The same user and idempotency key always name the same order. */
  function CreateOrder(
      s: Shop, o: nat, user: nat, product: nat, payment: Payment, key: string, now: int): Result<Shop, Error> {
    if key == "" then Err(Conflict)
    else if IdempotentOrders(s, user, key) != {} then Ok(s)
    else if product !in s.catalog || !s.catalog[product].active then Err(NotFound)
    else if o in s.orders || user !in s.members then Err(Internal)
    else
      var p := s.catalog[product];
      var order := Order(user, product, p.price, p.pointsPrice, payment, Pending, NoTransaction, now, key);
      Ok(s.(orders := s.orders[o := order]))
  }

  predicate TransactionTaken(s: Shop, o: nat, transaction: Transaction) {
    transaction != NoTransaction && exists p :: p in s.orders && p != o && s.orders[p].transaction == transaction
  }

  function DeliverTraffic(s: Shop, o: nat, entitlement: nat, now: int): Result<Shop, Error>
    requires o in s.orders && s.orders[o].product in s.catalog
  {
    var p := s.catalog[s.orders[o].product];
    if p.traffic <= 0 then Ok(s) else
      var expires := if p.validDays > 0 then now + p.validDays * M.DAY else PERMANENT;
      match L.Grant(s.ledger, entitlement, s.orders[o].user, p.traffic, expires, L.FromOrder(o))
      case Err(_) => Err(Internal)
      case Ok(ledger) => Ok(s.(ledger := ledger))
  }

  function DeliverMembership(s: Shop, user: nat, perk: Perk, now: int): Result<Shop, Error> {
    if perk.NoPerk? then Ok(s)
    else if M.Normalize(perk.benefit).Err? then Err(Invalid)
    else if user !in s.members then Err(NotFound)
    else
      match M.ApplyBenefit(s.members[user], perk.benefit, now)
      case Err(_) => Err(Invalid)
      case Ok(m) => Ok(s.(members := s.members[user := m]))
  }

  /** Marks a pending order paid and delivers what it bought. */
  function CompleteOrder(
      s: Shop, o: nat, transaction: Transaction, entitlement: nat, now: int, reward: bool): Result<Shop, Error>
    requires o in s.orders && s.orders[o].product in s.catalog
  {
    var order := s.orders[o];
    if order.status != Pending then Err(Conflict)
    else if TransactionTaken(s, o, transaction) then Err(Internal)
    else
      var paid := s.(orders := s.orders[o := order.(status := Paid, transaction := transaction)]);
      match DeliverTraffic(paid, o, entitlement, now)
      case Err(e) => Err(e)
      case Ok(delivered) =>
        match DeliverMembership(delivered, order.user, s.catalog[order.product].perk, now)
        case Err(e) => Err(e)
        case Ok(promoted) =>
          if reward && order.price > 0 then Booking(promoted, order.user, RewardFor(order.price), Reward(o))
            else Ok(promoted)
  }

  function CompleteSandboxOrder(
      s: Shop, o: nat, user: nat, event: nat, transaction: Transaction, entitlement: nat, now: int)
    : Result<Shop, Error>
  {
    if o !in s.orders || s.orders[o].user != user then Err(NotFound)
    else if s.orders[o].product !in s.catalog then Err(Internal)
    else if s.orders[o].payment != Sandbox then Err(Unauthorized)
    else if s.orders[o].status == Paid || event in s.events then Ok(s)
    else CompleteOrder(s.(events := s.events + {event}), o, transaction, entitlement, now, true)
  }

  function PayOrderWithPoints(s: Shop, o: nat, user: nat, entitlement: nat, now: int): Result<Shop, Error> {
    if o !in s.orders || s.orders[o].user != user then Err(NotFound)
    else if s.orders[o].product !in s.catalog then Err(Internal)
    else if s.orders[o].payment != WithPoints then Err(Unauthorized)
    else if s.orders[o].status == Paid then Ok(s)
    else
      match Booking(s, user, -s.orders[o].pointsPrice, Spend(o))
      case Err(e) => Err(e)
      case Ok(spent) => CompleteOrder(spent, o, PointsPayment(o), entitlement, now, false)
  }

  /** The points half of a refund: the price comes back, or the reward is withdrawn. */
  function ReturnPoints(s: Shop, o: nat): Result<Shop, Error>
    requires o in s.orders
  {
    var order := s.orders[o];
    if order.payment == WithPoints then Booking(s, order.user, order.pointsPrice, Refund(o))
    else if order.price > 0 then
      match Booking(s, order.user, -RewardFor(order.price), RewardRefund(o))
      case Err(_) => Err(QuotaExceeded)
      case Ok(returned) => Ok(returned)
    else Ok(s)
  }

  function RefundOrder(s: Shop, o: nat): Result<Shop, Error> {
    if o !in s.orders then Err(NotFound) else
      var order := s.orders[o];
      if order.status != Paid || (order.payment != Sandbox && order.payment != WithPoints) then Err(Conflict)
      else if order.product !in s.catalog then Err(Internal)
      else if s.catalog[order.product].perk.Perk? then Err(Conflict)
      else
        match L.RevokeOrder(s.ledger, o)
        case Err(_) => Err(QuotaExceeded)
        case Ok(ledger) =>
          match ReturnPoints(s, o)
          case Err(e) => Err(e)
          case Ok(returned) => Ok(returned.(ledger := ledger, orders := s.orders[o := order.(status := Refunded)]))
  }

  function CloseStale(s: Shop, now: int): Shop {
    s.(orders := map o | o in s.orders ::
         var order := s.orders[o];
         if order.status == Pending && order.created < now - STALE then order.(status := Closed) else order)
  }

  /** Accounts opened by the ledger start with no points. */
  function WithLedger(s: Shop, ledger: L.Ledger): Shop {
    s.(ledger := ledger,
       book := s.book.(balances := map u | u in ledger.accounts ::
         if u in s.book.balances then s.book.balances[u] else 0))
  }

  function Register(s: Shop, user: nat): Shop {
    if user in s.members then s
    else WithLedger(s, L.OpenAccount(s.ledger, user)).(members := s.members[user := M.Member(M.Unnamed, 0)])
  }

  // ---------- runs ----------

  /** Ledger transactions other than the two that orders make themselves. */
  predicate Foreign(step: T.Step) {
    !step.Revoke? && (step.GrantTo? ==> step.origin == L.Gift)
  }

  datatype Step =
    | NewUser(user: nat)
    | Award(what: EventKey)
    | SetProduct(id: nat, row: Product)
    | Create(o: nat, user: nat, product: nat, payment: Payment, key: string, now: int)
    | PaySandbox(o: nat, user: nat, event: nat, transaction: Transaction, entitlement: nat, now: int)
    | PayPoints(o: nat, user: nat, entitlement: nat, now: int)
    | GiveBack(o: nat)
    | Close(now: int)
    | Benefit(user: nat, perk: Perk, now: int)
    | Traffic(step: T.Step)

  function Commit(s: Shop, r: Result<Shop, Error>): Shop {
    if r.Ok? then r.value else s
  }

  function Apply(s: Shop, step: Step): Shop {
    match step
    case NewUser(user) => Register(s, user)
    case Award(key) =>
      if key.Welcome? || key.AdminProvision? then Commit(s, Booking(s, key.user, 100, key)) else s
    case SetProduct(id, product) => s.(catalog := s.catalog[id := product])
    case Create(o, user, product, payment, key, now) => Commit(s, CreateOrder(s, o, user, product, payment, key, now))
    case PaySandbox(o, user, event, transaction, entitlement, now) =>
      Commit(s, CompleteSandboxOrder(s, o, user, event, transaction, entitlement, now))
    case PayPoints(o, user, entitlement, now) => Commit(s, PayOrderWithPoints(s, o, user, entitlement, now))
    case GiveBack(o) => Commit(s, RefundOrder(s, o))
    case Close(now) => CloseStale(s, now)
    case Benefit(user, perk, now) => Commit(s, DeliverMembership(s, user, perk, now))
    case Traffic(step) => if Foreign(step) then WithLedger(s, T.Apply(s.ledger, step)) else s
  }

  function Run(s: Shop, steps: seq<Step>): Shop
    decreases steps
  {
    if steps == [] then s else Run(Apply(s, steps[0]), steps[1..])
  }
}
