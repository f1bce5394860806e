/**
 * Submitted orders (comandas) with their items (items_comanda), and the queries over them
 * that the lifecycle rules use: active orders of a table, completed orders of a table, and
 * the counters of today's order numbers.
 */
module Orders {
  import opened Wrappers
  import opened Text
  import opened Sequencer
  import opened Draft

  /** Lifecycle state; the order screens write Pending, Completed and Cancelled, and only the start-up migration writes InPreparation. */
  datatype OrderState = Pending | InPreparation | Completed | Cancelled

  /** The text stored in comandas.estado. */
  function Label(s: OrderState): string {
    match s
    case Pending => "Pendiente"
    case InPreparation => "En preparación"
    case Completed => "Completada"
    case Cancelled => "Cancelada"
  }

  /** estado IN ('Pendiente', 'En preparación'). */
  predicate IsActive(s: OrderState) {
    s == Pending || s == InPreparation
  }

  /**
   * The stored labels name the states one to one, and the active states are exactly those
   * whose label the `IN ('Pendiente', 'En preparación')` filter admits.
   */
  lemma LabelsFaithful(s: OrderState, u: OrderState)
    ensures Label(s) == Label(u) ==> s == u
    ensures IsActive(s) <==> Label(s) in ["Pendiente", "En preparación"]
  {
  }

  /** A row of items_comanda: the product name is copied, not referenced. */
  datatype OrderItem = OrderItem(producto: string, cantidad: int, precioUnitario: int)

  /** A row of comandas with its items; mesa is None for an order without a table. */
  datatype Order = Order(
    numero: string,
    mesa: Option<int>,
    fecha: Date,
    usuario: string,
    total: int,
    estado: OrderState,
    observaciones: string,
    items: seq<OrderItem>)

  function ItemsTotal(items: seq<OrderItem>): int {
    if items == [] then 0
    else ItemsTotal(items[..|items| - 1]) + items[|items| - 1].cantidad * items[|items| - 1].precioUnitario
  }

  /** The item a draft line becomes: its name, quantity and unit price. */
  function ItemOf(l: DraftLine): OrderItem {
    OrderItem(l.nombre, l.cantidad, l.precio)
  }

  function CopyItems(d: seq<DraftLine>): seq<OrderItem> {
    seq(|d|, i requires 0 <= i < |d| => ItemOf(d[i]))
  }

  /** The stored items of an order add up to the draft total it was submitted with. */
  lemma {:induction false} CopyItemsTotal(d: seq<DraftLine>)
    ensures ItemsTotal(CopyItems(d)) == DraftTotal(d)
    decreases |d|
  {
    if d != [] {
      var items := CopyItems(d);
      assert items[..|items| - 1] == CopyItems(d[..|d| - 1]);
      CopyItemsTotal(d[..|d| - 1]);
      assert items[|items| - 1].cantidad * items[|items| - 1].precioUnitario == Subtotal(d[|d| - 1]);
    }
  }

  /** What every stored order satisfies: its total is the sum of its items, and its number is well formed. */
  ghost predicate WellFormed(o: Order) {
    && o.total == ItemsTotal(o.items)
    && (forall k :: 0 <= k < |o.items| ==> o.items[k].cantidad >= 1)
    && MatchesNumberPattern(o.numero)
    && 1 <= SuffixValue(o.numero) <= 99
  }

  /** The order finalizar_comanda stores under the number numero: Pendiente, one item per draft line. */
  function NewOrder(d: seq<DraftLine>, numero: string, mesa: Option<int>, today: Date,
                    usuario: string, observaciones: string): Order
  {
    Order(numero, mesa, today, usuario, DraftTotal(d), Pending, observaciones, CopyItems(d))
  }

  /** The order stored from a valid draft under a well-formed number is well formed. */
  lemma NewOrderWellFormed(d: seq<DraftLine>, numero: string, mesa: Option<int>, today: Date,
                           usuario: string, observaciones: string)
    requires DraftValid(d)
    requires MatchesNumberPattern(numero) && 1 <= SuffixValue(numero) <= 99
    ensures WellFormed(NewOrder(d, numero, mesa, today, usuario, observaciones))
  {
    CopyItemsTotal(d);
  }

  /** Storing a well-formed order under any id keeps every stored order well formed. */
  lemma InsertWellFormed(orders: map<int, Order>, id: int, o: Order, after: map<int, Order>)
    requires forall j :: j in orders ==> WellFormed(orders[j])
    requires WellFormed(o) && after == orders[id := o]
    ensures forall j :: j in after ==> WellFormed(after[j])
  {
    forall j | j in after
      ensures WellFormed(after[j])
    {
      if j != id {
        assert after[j] == orders[j];
      }
    }
  }

  /** The orders of table t in state Pendiente or En preparación. */
  function ActiveOrders(orders: map<int, Order>, t: int): set<int> {
    set id | id in orders && orders[id].mesa == Some(t) && IsActive(orders[id].estado)
  }

  function ActiveCount(orders: map<int, Order>, t: int): nat {
    |ActiveOrders(orders, t)|
  }

  /** The orders of table t in state Completada. */
  function CompletedCount(orders: map<int, Order>, t: int): nat {
    |set id | id in orders && orders[id].mesa == Some(t) && orders[id].estado == Completed|
  }

  /** The rows the sequencer's query reads: dated today and matching LIKE '%-%__'. */
  predicate CountsToday(o: Order, today: Date) {
    o.fecha == today && MatchesNumberPattern(o.numero)
  }

  /** The counters CAST(SUBSTR(numero_comanda, -2) AS INTEGER) of today's orders. */
  function TodaySuffixes(orders: map<int, Order>, today: Date): set<int> {
    set id | id in orders && CountsToday(orders[id], today) :: SuffixValue(orders[id].numero)
  }

  /** The counters of today's orders whose id is below n, as a scan over ids reaches them. */
  function TodaySuffixesBelow(orders: map<int, Order>, today: Date, n: int): set<int> {
    set id | id in orders && id < n && CountsToday(orders[id], today) :: SuffixValue(orders[id].numero)
  }

  /** Scanning one more id adds that order's counter when it is counted today. */
  lemma SuffixesBelowStep(orders: map<int, Order>, today: Date, n: int)
    ensures TodaySuffixesBelow(orders, today, n + 1) ==
            TodaySuffixesBelow(orders, today, n) +
            (if n in orders && CountsToday(orders[n], today) then {SuffixValue(orders[n].numero)} else {})
  {
    var extra := if n in orders && CountsToday(orders[n], today) then {SuffixValue(orders[n].numero)} else {};
    forall v | v in TodaySuffixesBelow(orders, today, n + 1)
      ensures v in TodaySuffixesBelow(orders, today, n) + extra
    {
      var j :| j in orders && j < n + 1 && CountsToday(orders[j], today) && SuffixValue(orders[j].numero) == v;
      if j != n {
        assert v in TodaySuffixesBelow(orders, today, n);
      }
    }
    forall v | v in TodaySuffixesBelow(orders, today, n) ensures v in TodaySuffixesBelow(orders, today, n + 1) {
      var j :| j in orders && j < n && CountsToday(orders[j], today) && SuffixValue(orders[j].numero) == v;
      assert j < n + 1;
    }
  }

  /** Once the scan has passed every id, it has seen all of today's counters. */
  lemma SuffixesBelowAll(orders: map<int, Order>, today: Date, n: int)
    requires forall id :: id in orders ==> id < n
    ensures TodaySuffixesBelow(orders, today, n) == TodaySuffixes(orders, today)
  {
  }

  /** Changing the state of one order moves only that order in or out of its table's active set. */
  lemma ActiveAfterUpdate(orders: map<int, Order>, id: int, s: OrderState, t: int)
    requires id in orders
    ensures ActiveOrders(orders[id := orders[id].(estado := s)], t) ==
            (ActiveOrders(orders, t) - {id}) + (if orders[id].mesa == Some(t) && IsActive(s) then {id} else {})
  {
  }

  /** A new order joins its table's active set exactly when it is itself active. */
  lemma ActiveAfterInsert(orders: map<int, Order>, id: int, o: Order, t: int)
    requires id !in orders
    ensures ActiveOrders(orders[id := o], t) ==
            ActiveOrders(orders, t) + (if o.mesa == Some(t) && IsActive(o.estado) then {id} else {})
  {
  }

  /** A new order dated today adds its own counter to today's counters. */
  lemma SuffixesAfterInsert(orders: map<int, Order>, id: int, o: Order, today: Date)
    requires id !in orders
    ensures TodaySuffixes(orders[id := o], today) ==
            TodaySuffixes(orders, today) + (if CountsToday(o, today) then {SuffixValue(o.numero)} else {})
  {
    var after := orders[id := o];
    forall v | v in TodaySuffixes(after, today)
      ensures v in TodaySuffixes(orders, today) + (if CountsToday(o, today) then {SuffixValue(o.numero)} else {})
    {
      var j :| j in after && CountsToday(after[j], today) && SuffixValue(after[j].numero) == v;
      if j != id {
        assert j in orders;
      }
    }
    forall v | v in TodaySuffixes(orders, today) ensures v in TodaySuffixes(after, today) {
      var j :| j in orders && CountsToday(orders[j], today) && SuffixValue(orders[j].numero) == v;
      assert j in after && after[j] == orders[j];
    }
    if CountsToday(o, today) {
      assert id in after && after[id] == o;
    }
  }

  /**
   * Over well-formed orders, the maximum counter of today is in 0..99 and the next
   * counter is that maximum plus one, or 1 after 99.
   */
  lemma NextTicketOfStore(orders: map<int, Order>, today: Date, m: int)
    requires forall id :: id in orders ==> WellFormed(orders[id])
    requires IsMaxOrZero(TodaySuffixes(orders, today), m)
    ensures 0 <= m <= 99
    ensures NextTicket(m) == if m < 99 then m + 1 else 1
  {
    if m != 0 {
      var j :| j in orders && CountsToday(orders[j], today) && SuffixValue(orders[j].numero) == m;
      assert WellFormed(orders[j]);
    }
  }
}
