// Orders and the ticket counters they hold units of: what each call does to both.
module Orders {
  import opened Common

  datatype Status = Pending | PendingPayment | Confirmed | Cancelled | Expired {
    // OrderStatus.Terminal. It lists CONFIRMED, which CancelOrder nevertheless lets go.
    predicate Terminal() { Confirmed? || Cancelled? || Expired? }

    // The order holds its units.
    predicate Live() { Pending? || PendingPayment? || Confirmed? }

    predicate Held() { Pending? || PendingPayment? }
  }

  datatype Order = Order(
    user: Id, event: Id, ticket: Id, quantity: int, price: int, status: Status,
    key: Option<string>, expiresAt: Option<Time>,
    session: Option<string>, intent: Option<string>, paidAt: Option<Time>)

  datatype Ticket = Ticket(event: Id, total: int, sold: int, active: bool, maxPerOrder: Option<int>, price: int)

  // Orders are never deleted: an order's id is its position.
  datatype State = State(orders: seq<Order>, tickets: map<Id, Ticket>)

  datatype OrderError =
    | OrderNotFound | TicketGone | SoldOut | TooMany | InvalidQty | InvalidStatus | AtCapacity
    | OrgUnknown | SessionTaken | KeyTaken

  const HOLD_TTL: Time := 900   // seconds

  // ---------- the ticket store ----------

  datatype StoreError = NoTicket | NotOnSale | OverLimit | NoneLeft | BadCount

  function ReserveTx(tickets: map<Id, Ticket>, id: Id, n: int): Reply<map<Id, Ticket>, StoreError> {
    if n <= 0 then Err(BadCount)
    else if id !in tickets then Err(NoTicket)
    else
      var t := tickets[id];
      if !t.active then Err(NotOnSale)
      else if t.maxPerOrder.Some? && n > t.maxPerOrder.value then Err(OverLimit)
      else if t.sold + n > t.total then Err(NoneLeft)
      else Ok(tickets[id := t.(sold := t.sold + n)])
  }

  function ReleaseTx(tickets: map<Id, Ticket>, id: Id, n: int): Reply<map<Id, Ticket>, StoreError> {
    if n <= 0 then Err(BadCount)
    else if id !in tickets then Err(NoTicket)
    else
      var t := tickets[id];
      if t.sold - n < 0 then Err(BadCount)
      else Ok(tickets[id := t.(sold := t.sold - n)])
  }

  function MorphReserve(e: StoreError): OrderError {
    match e
    case NoneLeft => SoldOut
    case BadCount => InvalidQty
    case OverLimit => TooMany
    case NoTicket => TicketGone
    case NotOnSale => TicketGone
  }

  // ---------- staff calls on a type ----------

  datatype StaffError = TypeUnknown | BadPrice | BadTotal | HasSales | WrongStatus

  // UpdateType, and Activate or Pause. A draft and a paused type are alike: not on sale.
  datatype Change =
    | Update(total: Option<int>, price: Option<int>, maxPerOrder: Option<int>)
    | SetActive(to: bool)

  // The row a staff call saves, from the row it loaded. The counter it loaded goes with it.
  function Edited(t: Ticket, change: Change): Reply<Ticket, StaffError> {
    match change
    case Update(total, price, max) =>
      if price.Some? && price.value < 0 then Err(BadPrice)
      else if total.Some? && total.value <= 0 then Err(BadTotal)
      else if total.Some? && total.value < t.sold then Err(HasSales)
      else if max.Some? && max.value <= 0 then Err(BadTotal)
      else
        Ok(t.(price := if price.Some? then price.value else t.price, total := if total.Some? then total.value else t.total,
              maxPerOrder := if max.Some? then max else t.maxPerOrder))
    case SetActive(to) => if t.active == to then Err(WrongStatus) else Ok(t.(active := to))
  }

  // Saves the whole row. When the row has been deleted meanwhile, the save inserts it again.
  function SaveTicket(s: State, id: Id, row: Ticket): State {
    s.(tickets := s.tickets[id := row])
  }

  function DropTicket(s: State, id: Id): State {
    s.(tickets := s.tickets - {id})
  }

  function CreateTicket(s: State, id: Id, event: Id, price: int, total: int, max: Option<int>): (State, Reply<(), StaffError>) {
    if price < 0 then (s, Err(BadPrice))
    else if total <= 0 || (max.Some? && max.value <= 0) then (s, Err(BadTotal))
    else (SaveTicket(s, id, Ticket(event, total, 0, false, max, price)), Ok(()))
  }

  function EditTicket(s: State, id: Id, change: Change): (State, Reply<(), StaffError>) {
    if id !in s.tickets then (s, Err(TypeUnknown))
    else
      match Edited(s.tickets[id], change)
      case Err(e) => (s, Err(e))
      case Ok(row) => (SaveTicket(s, id, row), Ok(()))
  }

  // The row stays as a soft-deleted one, which no query sees.
  function DeleteTicket(s: State, id: Id): (State, Reply<(), StaffError>) {
    if id !in s.tickets then (s, Err(TypeUnknown))
    else if s.tickets[id].sold > 0 then (s, Err(HasSales))
    else (DropTicket(s, id), Ok(()))
  }

  // ---------- create ----------

  // Facts other domains supply: what the catalogue says of the type, the roster head count with
  // the plan's cap (None when not checked), and whether the event's organization resolves.
  datatype Claim = Claim(published: bool, forSale: bool, soldOut: bool, roster: Option<(int, int)>, orgKnown: bool)

  predicate KeyedBy(o: Order, user: Id, key: string) {
    o.user == user && o.key == Some(key)
  }

  // The first order of this user under this key.
  function FindByKey(orders: seq<Order>, user: Id, key: string): (r: Option<nat>)
    ensures r.Some? ==> r.value < |orders| && KeyedBy(orders[r.value], user, key)
    ensures r.None? ==> forall i :: 0 <= i < |orders| ==> !KeyedBy(orders[i], user, key)
  {
    if orders == [] then None
    else
      var n := |orders| - 1;
      var earlier := FindByKey(orders[..n], user, key);
      if earlier.Some? then earlier
      else if KeyedBy(orders[n], user, key) then Some(n) else None
  }

  function NewOrder(user: Id, event: Id, id: Id, t: Ticket, quantity: int, key: string, now: Time): Order {
    var free := t.price == 0;
    Order(user, event, id, quantity, t.price, if free then Confirmed else PendingPayment,
          if key == "" then None else Some(key), if free then None else Some(now + HOLD_TTL), None, None, None)
  }

  // Everything before the transaction, for a ticket type that exists.
  function Refusal(t: Ticket, event: Id, quantity: int, claim: Claim): Option<OrderError> {
    if t.event != event || !claim.published then Some(TicketGone)
    else if !claim.forSale then Some(if claim.soldOut then SoldOut else TicketGone)
    else if t.maxPerOrder.Some? && quantity > t.maxPerOrder.value then Some(TooMany)
    else if claim.roster.Some? && claim.roster.value.0 + quantity > claim.roster.value.1 then Some(AtCapacity)
    else if !claim.orgKnown then Some(OrgUnknown)
    else None
  }

  // The transaction of a claim: the reservation and the insert, whose key is unique per user.
  function Place(s: State, row: Order): (State, Reply<nat, OrderError>) {
    match ReserveTx(s.tickets, row.ticket, row.quantity)
    case Err(e) => (s, Err(MorphReserve(e)))
    case Ok(tickets) =>
      if row.key.Some? && FindByKey(s.orders, row.user, row.key.value).Some? then (s, Err(KeyTaken))
      else (State(s.orders + [row], tickets), Ok(|s.orders|))
  }

  // The reply names the order: the new one, or the original of a replayed key.
  function CreateOrder(s: State, user: Id, event: Id, id: Id, quantity: int, key: string, claim: Claim, now: Time)
    : (State, Reply<nat, OrderError>)
  {
    if quantity <= 0 then (s, Err(InvalidQty))
    else if key != "" && FindByKey(s.orders, user, key).Some? then (s, Ok(FindByKey(s.orders, user, key).value))
    else if id !in s.tickets then (s, Err(TicketGone))
    else match Refusal(s.tickets[id], event, quantity, claim) {
      case Some(e) => (s, Err(e))
      case None => Place(s, NewOrder(user, event, id, s.tickets[id], quantity, key, now))
    }
  }

  // ---------- transactions on a loaded copy ----------

  // What a call intends to do with the order it loaded.
  datatype Intent =
    | Pay(session: string, intent: string, now: Time)
    | Link(session: string)
    | Cancel
    | Expire

  // stripe_session_id is unique across orders.
  predicate SessionFree(orders: seq<Order>, i: nat, session: string) {
    forall j :: 0 <= j < |orders| && j != i ==> orders[j].session != Some(session)
  }

  // The row a call writes: its own copy, changed. The whole row is saved.
  function Written(copy: Order, what: Intent): Order {
    match what
    case Pay(session, intent, now) =>
      copy.(status := Confirmed, session := Some(session),
            intent := if intent != "" then Some(intent) else copy.intent, paidAt := Some(now))
    case Link(session) => copy.(session := Some(session))
    case Cancel => copy.(status := Cancelled)
    case Expire => copy.(status := Expired)
  }

  // The transaction of a call that loaded `copy` of order i some time before. Either both the
  // counter and the row are written, or neither is.
  function Commit(s: State, i: nat, copy: Order, what: Intent): (State, Reply<(), OrderError>)
    requires i < |s.orders|
  {
    var row := Written(copy, what);
    var free := row.session.None? || SessionFree(s.orders, i, row.session.value);
    var orders := s.orders[i := row];
    if what.Pay? || what.Link? then
      if free then (s.(orders := orders), Ok(())) else (s, Err(SessionTaken))
    else
      match ReleaseTx(s.tickets, copy.ticket, copy.quantity)
      case Err(_) => (s, Err(TicketGone))
      case Ok(tickets) => if free then (State(orders, tickets), Ok(())) else (s, Err(SessionTaken))
  }

  // ---------- whole calls ----------

  function MarkPaid(s: State, i: nat, session: string, intent: string, now: Time, orgKnown: bool): (State, Reply<(), OrderError>) {
    if i >= |s.orders| then (s, Err(OrderNotFound))
    else
      var o := s.orders[i];
      if o.status == Confirmed then (s, Ok(()))
      else if o.status != PendingPayment then (s, Err(InvalidStatus))
      else if !orgKnown then (s, Err(OrgUnknown))
      else Commit(s, i, o, Pay(session, intent, now))
  }

  function SetSession(s: State, i: nat, session: string): (State, Reply<(), OrderError>) {
    if i >= |s.orders| then (s, Err(OrderNotFound))
    else if s.orders[i].status != PendingPayment && s.orders[i].status != Confirmed then (s, Err(InvalidStatus))
    else Commit(s, i, s.orders[i], Link(session))
  }

  function CancelOrder(s: State, caller: Id, manages: bool, i: nat, orgKnown: bool): (State, Reply<(), OrderError>) {
    if i >= |s.orders| then (s, Err(OrderNotFound))
    else
      var o := s.orders[i];
      if o.user != caller && !manages then (s, Err(OrderNotFound))
      else if o.status.Terminal() && o.status != Confirmed then (s, Err(InvalidStatus))
      else if !orgKnown then (s, Err(OrgUnknown))
      else Commit(s, i, o, Cancel)
  }

  // A held order past its deadline: what ExpiredPending selects.
  predicate Overdue(o: Order, now: Time) {
    o.status.Held() && o.expiresAt.Some? && o.expiresAt.value <= now
  }

  function OverdueSet(orders: seq<Order>, now: Time): set<nat> {
    set i | 0 <= i < |orders| && Overdue(orders[i], now)
  }

  function EffectiveBatch(batch: int): (b: nat)
    ensures 1 <= b <= 500
    ensures b == if 1 <= batch <= 500 then batch else 100
  {
    if batch <= 0 || batch > 500 then 100 else batch
  }

  // Any limited selection of the overdue orders: the query gives no order.
  predicate Selection(orders: seq<Order>, picks: seq<nat>, now: Time, limit: nat) {
    && (forall k :: 0 <= k < |picks| ==> picks[k] in OverdueSet(orders, now))
    && (forall j, k :: 0 <= j < k < |picks| ==> picks[j] != picks[k])
    && |picks| == Min(limit, |OverdueSet(orders, now)|)
  }

  // expireOne over the selected copies, skipping those that fail. Returns how many were done.
  function Sweep(s: State, copies: seq<Order>, picks: seq<nat>, orgKnown: Id -> bool): (State, nat)
    requires |copies| == |s.orders| && forall k :: 0 <= k < |picks| ==> picks[k] < |s.orders|
    ensures |Sweep(s, copies, picks, orgKnown).0.orders| == |s.orders|
  {
    if picks == [] then (s, 0)
    else
      var n := |picks| - 1;
      var (s1, done) := Sweep(s, copies, picks[..n], orgKnown);
      var copy := copies[picks[n]];
      if !orgKnown(copy.event) then (s1, done)
      else
        var (s2, r) := Commit(s1, picks[n], copy, Expire);
        (s2, if r.Ok? then done + 1 else done)
  }
}
