/**
 * The order and table lifecycle of SistemaComandas, with the database replaced by two maps:
 * `tables` (mesas) and `orders` (comandas with their items_comanda), keyed by row id.
 * The session state is the draft (comanda_actual) and the selected table (mesa_actual).
 * Configuration flags, the clock and the user's answers to confirmation dialogs are
 * parameters of the operations.
 */
module Comandas {
  import opened Wrappers
  import opened Text
  import opened Sequencer
  import opened Draft
  import opened Tables
  import opened Orders

  datatype AddOutcome = LineAdded | TableRequired

  datatype SubmitOutcome =
    | EmptyOrder
    | NoTableSelected
    | Submitted(id: int, numero: string, total: int)

  datatype CompleteOutcome =
    | CompleteNotFound
    | AlreadyCompleted
    | CompleteDeclined
    | CompletedOrder(tableReleased: bool)

  datatype CancelOutcome =
    | CancelNotFound
    | AlreadyCancelled
    | CannotCancelCompleted
    | CancelDeclined
    | CancelledOrder

  datatype ReleaseOutcome =
    | ReleaseNotFound
    | AlreadyAvailable
    | ReleaseDeclined
    | NoAssociatedTable
    | TableReleased

  datatype DeleteOutcome = DeleteDeclined | HasActiveOrders(count: nat) | TableDeleted

  class OrderSystem {
    var tables: map<int, Table>
    var orders: map<int, Order>
    /** The rowid the next order receives; orders are never deleted. */
    var nextOrderId: int
    var draft: seq<DraftLine>
    var selectedTable: Option<int>

    /** Order ids are the rowids 1, 2, ... handed out so far. */
    ghost predicate IdsValid()
      reads this
    {
      nextOrderId >= 1 && forall id :: id in orders <==> 1 <= id < nextOrderId
    }

    ghost predicate Valid()
      reads this
    {
      && DraftValid(draft)
      && IdsValid()
      && (forall id :: id in orders ==> WellFormed(orders[id]))
    }

    /**
     * A session opened on the stored database: the mesas and comandas rows already there,
     * with rowids 1 .. nextId-1, and an empty draft with no table selected.
     */
    constructor (initialTables: map<int, Table>, initialOrders: map<int, Order>, nextId: int)
      requires nextId >= 1 && forall id :: id in initialOrders <==> 1 <= id < nextId
      requires forall id :: id in initialOrders ==> WellFormed(initialOrders[id])
      ensures Valid()
      ensures tables == initialTables && orders == initialOrders && nextOrderId == nextId
      ensures draft == [] && selectedTable == None
    {
      tables := initialTables;
      orders := initialOrders;
      nextOrderId := nextId;
      draft := [];
      selectedTable := None;
    }

    /** The class a table's button is drawn with. */
    function StatusOf(t: int): TableClass
      reads this
      requires t in tables
    {
      Classify(tables[t].estado, ActiveCount(orders, t), CompletedCount(orders, t))
    }

    /** seleccionar_mesa: choosing an occupied table needs the user's confirmation. */
    method SelectTable(t: int, confirmed: bool)
      requires Valid() && t in tables
      modifies this`selectedTable
      ensures Valid()
      ensures selectedTable == if Lower(tables[t].estado) == "ocupada" && !confirmed then old(selectedTable) else Some(t)
    {
      if Lower(tables[t].estado) == "ocupada" && !confirmed {
        return;
      }
      selectedTable := Some(t);
    }

    /** agregar_a_comanda: refused without a table when one is required; otherwise bump or append. */
    method AddToDraft(p: Product, usarMesas: bool, permitirSinMesa: bool) returns (r: AddOutcome)
      requires Valid()
      modifies this`draft
      ensures Valid()
      ensures r == TableRequired <==> usarMesas && !permitirSinMesa && selectedTable.None?
      ensures draft == if r == TableRequired then old(draft) else DraftAdd(old(draft), p)
    {
      if usarMesas && !permitirSinMesa && selectedTable.None? {
        return TableRequired;
      }
      DraftAddValid(draft, p);
      var i := 0;
      while i < |draft|
        invariant 0 <= i <= |draft| && draft == old(draft)
        invariant forall j :: 0 <= j < i ==> draft[j].id != p.id
      {
        if draft[i].id == p.id {
          draft := draft[i := draft[i].(cantidad := draft[i].cantidad + 1)];
          return LineAdded;
        }
        i := i + 1;
      }
      draft := draft + [NewLine(p)];
      r := LineAdded;
    }

    /** quitar_de_comanda on the selected listbox line (None: nothing selected, nothing changes). */
    method RemoveFromDraft(selection: Option<nat>) returns (removed: bool)
      requires Valid()
      requires selection.Some? ==> selection.value < |draft|
      modifies this`draft
      ensures Valid()
      ensures removed == selection.Some?
      ensures draft == if selection.Some? then DraftRemove(old(draft), selection.value) else old(draft)
    {
      if selection.None? {
        return false;
      }
      var index := selection.value;
      DraftRemoveValid(draft, index);
      if draft[index].cantidad > 1 {
        draft := draft[index := draft[index].(cantidad := draft[index].cantidad - 1)];
      } else {
        draft := draft[..index] + draft[index + 1..];
      }
      removed := true;
    }

    /** limpiar_comanda: empties a non-empty draft once the user confirms. */
    method ClearDraft(confirmed: bool)
      requires Valid()
      modifies this`draft
      ensures Valid()
      ensures draft == if old(draft) != [] && confirmed then [] else old(draft)
    {
      if draft != [] && confirmed {
        draft := [];
      }
    }

    /** actualizar_comanda_display: one text per line, and the running total. */
    method DisplayDraft() returns (lines: seq<string>, total: int)
      ensures total == DraftTotal(draft)
      ensures lines == DraftLines(draft)
      ensures |lines| == |draft|
      ensures forall i :: 0 <= i < |draft| ==> lines[i] == LineText(draft[i])
    {
      var d := draft;
      lines := [];
      total := 0;
      var i := 0;
      while i < |d|
        invariant 0 <= i <= |d|
        invariant total == DraftTotal(d[..i])
        invariant lines == DraftLines(d[..i])
      {
        assert d[..i + 1][..i] == d[..i];
        total := total + Subtotal(d[i]);
        lines := lines + [LineText(d[i])];
        i := i + 1;
      }
      assert d[..|d|] == d;
      DraftLinesIndex(d);
    }

    /** The query of obtener_siguiente_numero_ticket: the largest counter used today, or 0. */
    method TodayMaxSuffix(today: Date) returns (m: int)
      requires IdsValid()
      ensures IsMaxOrZero(TodaySuffixes(orders, today), m)
    {
      var os, n := orders, nextOrderId;
      var found := false;
      m := 0;
      var id := 1;
      ghost var seen: set<int> := {};
      while id < n
        invariant 1 <= id <= n
        invariant seen == TodaySuffixesBelow(os, today, id)
        invariant found <==> seen != {}
        invariant IsMaxOrZero(seen, m)
      {
        SuffixesBelowStep(os, today, id);
        if CountsToday(os[id], today) {
          var v := SuffixValue(os[id].numero);
          MaxStep(seen, m, found, v);
          if !found || v > m {
            m := v;
          }
          found := true;
          seen := seen + {v};
        }
        id := id + 1;
      }
      assert forall j :: j in os ==> j < n;
      SuffixesBelowAll(os, today, n);
      assert seen == TodaySuffixes(os, today);
    }

    /** The items_comanda rows finalizar_comanda inserts, one per draft line in order. */
    static method CopyDraftItems(d: seq<DraftLine>) returns (items: seq<OrderItem>)
      ensures items == CopyItems(d)
    {
      items := [];
      var i := 0;
      while i < |d|
        invariant 0 <= i <= |d|
        invariant items == seq(i, k requires 0 <= k < i => ItemOf(d[k]))
      {
        items := items + [ItemOf(d[i])];
        i := i + 1;
      }
    }

    /**
     * finalizar_comanda. Refused, with nothing written, for an empty draft or for a missing
     * table when tables are in use and orders without one are not allowed. Otherwise stores
     * one Pendiente order numbered from today's counters, with the draft's total and one item
     * per draft line, marks the chosen table occupied, and empties the draft and the selection.
     */
    method Submit(usarMesas: bool, permitirSinMesa: bool, today: Date, usuario: string, observaciones: string)
      returns (r: SubmitOutcome)
      requires Valid()
      modifies this`orders, this`nextOrderId, this`tables, this`draft, this`selectedTable
      ensures Valid()
      ensures old(draft) == [] ==> r == EmptyOrder
      ensures old(draft) != [] && usarMesas && old(selectedTable).None? && !permitirSinMesa ==> r == NoTableSelected
      ensures r.Submitted? <==> old(draft) != [] && !(usarMesas && old(selectedTable).None? && !permitirSinMesa)
      ensures !r.Submitted? ==> unchanged(this)
      ensures r.Submitted? ==>
        var mesa := if usarMesas then old(selectedTable) else None;
        && r.id == old(nextOrderId) && r.id !in old(orders)
        && (exists m :: IsMaxOrZero(TodaySuffixes(old(orders), today), m) && r.numero == OrderNumber(today, TicketText(m)))
        && r.total == DraftTotal(old(draft))
        && orders == old(orders)[r.id := NewOrder(old(draft), r.numero, mesa, today, usuario, observaciones)]
        && tables == (if mesa.Some? then SetState(old(tables), mesa.value, OCCUPIED) else old(tables))
        && draft == [] && selectedTable == None && nextOrderId == old(nextOrderId) + 1
        && (mesa.Some? && mesa.value in tables ==> StatusOf(mesa.value) == InService)
    {
      if draft == [] {
        return EmptyOrder;
      }
      if usarMesas && selectedTable.None? && !permitirSinMesa {
        return NoTableSelected;
      }
      var numero := NextOrderNumber(today);
      r := StoreDraft(numero, if usarMesas then selectedTable else None, today, usuario, observaciones);
    }

    /** numero_comanda as finalizar_comanda builds it from today's date and the next ticket. */
    method NextOrderNumber(today: Date) returns (numero: string)
      requires IdsValid()
      ensures exists m :: IsMaxOrZero(TodaySuffixes(orders, today), m) && numero == OrderNumber(today, TicketText(m))
      ensures MatchesNumberPattern(numero) && 1 <= SuffixValue(numero) <= 99
    {
      var last := TodayMaxSuffix(today);
      numero := OrderNumber(today, TicketText(last));
      OrderNumberSuffix(today, last);
    }

    /** The part of finalizar_comanda past its checks: store the order, occupy its table, reset the session. */
    method StoreDraft(numero: string, mesa: Option<int>, today: Date, usuario: string, observaciones: string)
      returns (r: SubmitOutcome)
      requires Valid()
      requires MatchesNumberPattern(numero) && 1 <= SuffixValue(numero) <= 99
      modifies this`orders, this`nextOrderId, this`tables, this`draft, this`selectedTable
      ensures Valid()
      ensures r == Submitted(old(nextOrderId), numero, DraftTotal(old(draft))) && r.id !in old(orders)
      ensures orders == old(orders)[r.id := NewOrder(old(draft), numero, mesa, today, usuario, observaciones)]
      ensures tables == (if mesa.Some? then SetState(old(tables), mesa.value, OCCUPIED) else old(tables))
      ensures draft == [] && selectedTable == None && nextOrderId == old(nextOrderId) + 1
      ensures mesa.Some? && mesa.value in tables ==> StatusOf(mesa.value) == InService
    {
      var items := CopyDraftItems(draft);
      var order := Order(numero, mesa, today, usuario, DraftTotal(draft), Pending, observaciones, items);
      NewOrderWellFormed(draft, numero, mesa, today, usuario, observaciones);
      var id := StoreOrder(order);
      if mesa.Some? {
        OccupyTable(mesa.value, id);
      }
      draft := [];
      selectedTable := None;
      r := Submitted(id, numero, order.total);
    }

    /** The INSERT INTO comandas / items_comanda: the order is stored under the next rowid. */
    method StoreOrder(order: Order) returns (id: int)
      requires Valid() && WellFormed(order)
      modifies this`orders, this`nextOrderId
      ensures Valid()
      ensures id == old(nextOrderId) && id !in old(orders)
      ensures orders == old(orders)[id := order] && nextOrderId == old(nextOrderId) + 1
    {
      id := nextOrderId;
      var before := orders;
      var after := before[id := order];
      InsertWellFormed(before, id, order, after);
      orders := after;
      nextOrderId := id + 1;
    }

    /** UPDATE mesas SET estado = 'ocupada': the table now shows as in service. */
    method OccupyTable(t: int, id: int)
      requires Valid() && id in orders && orders[id].mesa == Some(t) && IsActive(orders[id].estado)
      modifies this`tables
      ensures Valid()
      ensures tables == SetState(old(tables), t, OCCUPIED)
      ensures t in tables ==> StatusOf(t) == InService
    {
      tables := SetState(tables, t, OCCUPIED);
      WrittenLabels();
      assert id in ActiveOrders(orders, t);
    }

    /**
     * liberar_mesa_si_completada: frees table t, and reports true, exactly when no order of t
     * is Pendiente or En preparación; otherwise changes nothing.
     */
    method TryAutoRelease(t: int) returns (released: bool)
      requires Valid()
      modifies this`tables
      ensures Valid()
      ensures released <==> ActiveCount(orders, t) == 0
      ensures tables == if released then SetState(old(tables), t, AVAILABLE) else old(tables)
      ensures released && t in tables ==> StatusOf(t) == Free
    {
      released := ActiveCount(orders, t) == 0;
      if released {
        tables := SetState(tables, t, AVAILABLE);
        WrittenLabels();
      }
    }

    /** UPDATE comandas SET estado = ... WHERE id = ?: only that order's state changes. */
    method SetOrderState(id: int, s: OrderState)
      requires Valid() && id in orders
      modifies this`orders
      ensures Valid()
      ensures orders == old(orders)[id := old(orders)[id].(estado := s)]
    {
      var before := orders;
      var after := before[id := before[id].(estado := s)];
      InsertWellFormed(before, id, after[id], after);
      assert after.Keys == before.Keys;
      orders := after;
    }

    /**
     * completar_comanda_seleccionada: nothing happens to an order already Completada (or on
     * no confirmation); otherwise it becomes Completada and its table, if any, is released
     * when it has no active order left.
     */
    method Complete(id: int, confirmed: bool) returns (r: CompleteOutcome)
      requires Valid()
      modifies this`orders, this`tables
      ensures Valid()
      ensures id !in old(orders) ==> r == CompleteNotFound
      ensures id in old(orders) && old(orders)[id].estado == Completed ==> r == AlreadyCompleted
      ensures id in old(orders) && old(orders)[id].estado != Completed && !confirmed ==> r == CompleteDeclined
      ensures id in old(orders) && old(orders)[id].estado != Completed && confirmed ==> r.CompletedOrder?
      ensures !r.CompletedOrder? ==> orders == old(orders) && tables == old(tables)
      ensures r.CompletedOrder? ==>
        && id in old(orders) && old(orders)[id].estado != Completed && confirmed
        && orders == old(orders)[id := old(orders)[id].(estado := Completed)]
        && match old(orders)[id].mesa
           case None => !r.tableReleased && tables == old(tables)
           case Some(t) =>
             && (r.tableReleased <==> ActiveCount(orders, t) == 0)
             && tables == (if r.tableReleased then SetState(old(tables), t, AVAILABLE) else old(tables))
             && (r.tableReleased && t in tables ==> StatusOf(t) == Free)
    {
      if id !in orders {
        return CompleteNotFound;
      }
      if orders[id].estado == Completed {
        return AlreadyCompleted;
      }
      if !confirmed {
        return CompleteDeclined;
      }
      var mesa := orders[id].mesa;
      SetOrderState(id, Completed);
      var released := false;
      if mesa.Some? {
        released := TryAutoRelease(mesa.value);
      }
      r := CompletedOrder(released);
    }

    /**
     * cancelar_comanda_seleccionada: refused for Cancelada and Completada orders; otherwise the
     * order becomes Cancelada and its table, if any, is freed whatever other orders it has.
     */
    method Cancel(id: int, confirmed: bool) returns (r: CancelOutcome)
      requires Valid()
      modifies this`orders, this`tables
      ensures Valid()
      ensures id !in old(orders) ==> r == CancelNotFound
      ensures id in old(orders) && old(orders)[id].estado == Cancelled ==> r == AlreadyCancelled
      ensures id in old(orders) && old(orders)[id].estado == Completed ==> r == CannotCancelCompleted
      ensures id in old(orders) && IsActive(old(orders)[id].estado) && !confirmed ==> r == CancelDeclined
      ensures id in old(orders) && IsActive(old(orders)[id].estado) && confirmed ==> r == CancelledOrder
      ensures !r.CancelledOrder? ==> orders == old(orders) && tables == old(tables)
      ensures r.CancelledOrder? ==>
        && id in old(orders) && IsActive(old(orders)[id].estado) && confirmed
        && orders == old(orders)[id := old(orders)[id].(estado := Cancelled)]
        && match old(orders)[id].mesa
           case None => tables == old(tables)
           case Some(t) =>
             && tables == SetState(old(tables), t, AVAILABLE)
             && (t in tables ==> StatusOf(t) == Free || StatusOf(t) == FreeWithPending)
    {
      if id !in orders {
        return CancelNotFound;
      }
      if orders[id].estado == Cancelled {
        return AlreadyCancelled;
      }
      if orders[id].estado == Completed {
        return CannotCancelCompleted;
      }
      if !confirmed {
        return CancelDeclined;
      }
      var mesa := orders[id].mesa;
      SetOrderState(id, Cancelled);
      if mesa.Some? {
        tables := SetState(tables, mesa.value, AVAILABLE);
        WrittenLabels();
      }
      r := CancelledOrder;
    }

    /** The "Estado Mesa" column of an order row: its table's estado, or 'N/A'. */
    function ShownTableState(id: int): string
      reads this
      requires id in orders
    {
      match orders[id].mesa
      case Some(t) => if t in tables then tables[t].estado else "N/A"
      case None => "N/A"
    }

    /**
     * liberar_mesa_seleccionada: the manual release of an order's table, whatever its orders'
     * states. Skipped when the row already shows 'Disponible'; an order not yet Completada
     * needs an extra confirmation.
     */
    method ReleaseTableOf(id: int, confirmIncomplete: bool, confirmed: bool) returns (r: ReleaseOutcome)
      requires Valid()
      modifies this`tables
      ensures Valid()
      ensures id !in orders ==> r == ReleaseNotFound
      ensures id in orders && old(ShownTableState(id)) == AVAILABLE ==> r == AlreadyAvailable
      ensures r == TableReleased || r == NoAssociatedTable <==>
        && id in orders && old(ShownTableState(id)) != AVAILABLE
        && (orders[id].estado == Completed || confirmIncomplete) && confirmed
      ensures (id in orders && old(ShownTableState(id)) != AVAILABLE &&
               !((orders[id].estado == Completed || confirmIncomplete) && confirmed)) ==> r == ReleaseDeclined
      ensures r == TableReleased ==> orders[id].mesa.Some?
      ensures r == NoAssociatedTable ==> orders[id].mesa.None?
      ensures tables == if r == TableReleased then SetState(old(tables), orders[id].mesa.value, AVAILABLE) else old(tables)
    {
      if id !in orders {
        return ReleaseNotFound;
      }
      if ShownTableState(id) == AVAILABLE {
        return AlreadyAvailable;
      }
      if orders[id].estado != Completed && !confirmIncomplete {
        return ReleaseDeclined;
      }
      if !confirmed {
        return ReleaseDeclined;
      }
      match orders[id].mesa
      case None =>
        r := NoAssociatedTable;
      case Some(t) =>
        tables := SetState(tables, t, AVAILABLE);
        r := TableReleased;
    }

    /** eliminar_mesa: after confirmation, a table with an active order is kept; otherwise it is deleted. */
    method DeleteTable(t: int, confirmed: bool) returns (r: DeleteOutcome)
      requires Valid()
      modifies this`tables
      ensures Valid()
      ensures !confirmed ==> r == DeleteDeclined
      ensures confirmed && ActiveCount(orders, t) > 0 ==> r == HasActiveOrders(ActiveCount(orders, t))
      ensures confirmed && ActiveCount(orders, t) == 0 ==> r == TableDeleted
      ensures tables == if r == TableDeleted then old(tables) - {t} else old(tables)
    {
      if !confirmed {
        return DeleteDeclined;
      }
      var pending := ActiveCount(orders, t);
      if pending > 0 {
        return HasActiveOrders(pending);
      }
      tables := tables - {t};
      r := TableDeleted;
    }
  }
}
