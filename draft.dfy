/**
 * The draft order (comanda_actual): the list of lines a waiter assembles before submitting.
 * The functions here give the value each editing operation leaves; the class in
 * comandas.dfy edits its draft field in place and is proved to match them.
 */
module Draft {
  import opened Wrappers
  import opened Text

  /** A menu product row: (id, nombre, precio, categoria). Prices are integers (cents). */
  datatype Product = Product(id: int, nombre: string, precio: int, categoria: string)

  /** One entry {id, nombre, precio, cantidad, categoria} of the draft. */
  datatype DraftLine = DraftLine(id: int, nombre: string, precio: int, cantidad: int, categoria: string)

  /** The line a product gets the first time it is added. */
  function NewLine(p: Product): DraftLine {
    DraftLine(p.id, p.nombre, p.precio, 1, p.categoria)
  }

  function Subtotal(l: DraftLine): int {
    l.precio * l.cantidad
  }

  /** Sum of precio * cantidad over the draft. */
  function DraftTotal(d: seq<DraftLine>): int {
    if d == [] then 0 else DraftTotal(d[..|d| - 1]) + Subtotal(d[|d| - 1])
  }

  /** How many units of product `id` the draft holds, over all its lines. */
  function QuantityOf(d: seq<DraftLine>, id: int): int {
    if d == [] then 0
    else QuantityOf(d[..|d| - 1], id) + (if d[|d| - 1].id == id then d[|d| - 1].cantidad else 0)
  }

  /** What the editing operations keep: one line per product, and every quantity at least 1. */
  ghost predicate DraftValid(d: seq<DraftLine>) {
    && (forall i, j :: 0 <= i < j < |d| ==> d[i].id != d[j].id)
    && (forall i :: 0 <= i < |d| ==> d[i].cantidad >= 1)
  }

  /** The first line holding product `id`, as the `for item in self.comanda_actual` scan finds it. */
  function FindLine(d: seq<DraftLine>, id: int): (r: Option<nat>)
    ensures r.Some? ==> r.value < |d| && d[r.value].id == id
    ensures r.Some? ==> forall j :: 0 <= j < r.value ==> d[j].id != id
    ensures r.None? ==> forall j :: 0 <= j < |d| ==> d[j].id != id
  {
    if d == [] then None
    else if d[0].id == id then Some(0)
    else match FindLine(d[1..], id)
      case None => None
      case Some(k) => Some(k + 1)
  }

  /** The draft after agregar_a_comanda(p): bump the product's line, or append a new one. */
  function DraftAdd(d: seq<DraftLine>, p: Product): seq<DraftLine> {
    match FindLine(d, p.id)
    case Some(k) => d[k := d[k].(cantidad := d[k].cantidad + 1)]
    case None => d + [NewLine(p)]
  }

  /** The draft after quitar_de_comanda on line i: one unit fewer, or the line gone when it held one. */
  function DraftRemove(d: seq<DraftLine>, i: nat): seq<DraftLine>
    requires i < |d|
  {
    if d[i].cantidad > 1 then d[i := d[i].(cantidad := d[i].cantidad - 1)]
    else d[..i] + d[i + 1..]
  }

  lemma {:induction false} TotalConcat(a: seq<DraftLine>, b: seq<DraftLine>)
    ensures DraftTotal(a + b) == DraftTotal(a) + DraftTotal(b)
    decreases |b|
  {
    if b != [] {
      assert (a + b)[..|a + b| - 1] == a + b[..|b| - 1];
      TotalConcat(a, b[..|b| - 1]);
    } else {
      assert a + b == a;
    }
  }

  lemma {:induction false} QuantityConcat(a: seq<DraftLine>, b: seq<DraftLine>, id: int)
    ensures QuantityOf(a + b, id) == QuantityOf(a, id) + QuantityOf(b, id)
    decreases |b|
  {
    if b != [] {
      assert (a + b)[..|a + b| - 1] == a + b[..|b| - 1];
      QuantityConcat(a, b[..|b| - 1], id);
    } else {
      assert a + b == a;
    }
  }

  /** Splits a draft around line k, for the update and deletion lemmas. */
  lemma Around(d: seq<DraftLine>, k: nat, l: DraftLine)
    requires k < |d|
    ensures d == d[..k] + [d[k]] + d[k + 1..]
    ensures d[k := l] == d[..k] + [l] + d[k + 1..]
  {
  }

  lemma SingleTotals(l: DraftLine, id: int)
    ensures DraftTotal([l]) == Subtotal(l)
    ensures QuantityOf([l], id) == if l.id == id then l.cantidad else 0
  {
    assert [l][..0] == [];
  }

  /** Replacing one line changes the total by the difference of the two subtotals. */
  lemma TotalUpdate(d: seq<DraftLine>, k: nat, l: DraftLine)
    requires k < |d|
    ensures DraftTotal(d[k := l]) == DraftTotal(d) - Subtotal(d[k]) + Subtotal(l)
    ensures forall id ::
              QuantityOf(d[k := l], id) == QuantityOf(d, id) - (if d[k].id == id then d[k].cantidad else 0) + (if l.id == id then l.cantidad else 0)
  {
    Around(d, k, l);
    TotalConcat(d[..k] + [d[k]], d[k + 1..]);
    TotalConcat(d[..k], [d[k]]);
    TotalConcat(d[..k] + [l], d[k + 1..]);
    TotalConcat(d[..k], [l]);
    SingleTotals(d[k], 0);
    SingleTotals(l, 0);
    forall id ensures QuantityOf(d[k := l], id) ==
      QuantityOf(d, id) - (if d[k].id == id then d[k].cantidad else 0) + (if l.id == id then l.cantidad else 0)
    {
      QuantityConcat(d[..k] + [d[k]], d[k + 1..], id);
      QuantityConcat(d[..k], [d[k]], id);
      QuantityConcat(d[..k] + [l], d[k + 1..], id);
      QuantityConcat(d[..k], [l], id);
      SingleTotals(d[k], id);
      SingleTotals(l, id);
    }
  }

  /** Deleting one line takes its subtotal and its quantity out of the totals. */
  lemma TotalDelete(d: seq<DraftLine>, k: nat)
    requires k < |d|
    ensures DraftTotal(d[..k] + d[k + 1..]) == DraftTotal(d) - Subtotal(d[k])
    ensures forall id ::
              QuantityOf(d[..k] + d[k + 1..], id) == QuantityOf(d, id) - (if d[k].id == id then d[k].cantidad else 0)
  {
    Around(d, k, d[k]);
    TotalConcat(d[..k] + [d[k]], d[k + 1..]);
    TotalConcat(d[..k], [d[k]]);
    TotalConcat(d[..k], d[k + 1..]);
    SingleTotals(d[k], 0);
    forall id ensures QuantityOf(d[..k] + d[k + 1..], id) ==
      QuantityOf(d, id) - (if d[k].id == id then d[k].cantidad else 0)
    {
      QuantityConcat(d[..k] + [d[k]], d[k + 1..], id);
      QuantityConcat(d[..k], [d[k]], id);
      QuantityConcat(d[..k], d[k + 1..], id);
      SingleTotals(d[k], id);
    }
  }

  /**
   * Adding a product already in the draft raises its first line's quantity by 1 and leaves
   * every other line and the length as they were; adding a new product appends exactly
   * one line with cantidad 1 and the product's name, price and category.
   */
  lemma DraftAddEffect(d: seq<DraftLine>, p: Product)
    ensures forall k :: 0 <= k < |d| && d[k].id == p.id && (forall j :: 0 <= j < k ==> d[j].id != p.id) ==>
      && |DraftAdd(d, p)| == |d|
      && DraftAdd(d, p)[k] == d[k].(cantidad := d[k].cantidad + 1)
      && forall j :: 0 <= j < |d| && j != k ==> DraftAdd(d, p)[j] == d[j]
    ensures (forall k :: 0 <= k < |d| ==> d[k].id != p.id) ==> DraftAdd(d, p) == d + [NewLine(p)]
  {
  }

  /**
   * Adding a product raises its quantity by one unit and the draft total by one unit price:
   * the price its line already carries (captured when the line was created), or the
   * product's price when the line is new.
   */
  lemma DraftAddTotals(d: seq<DraftLine>, p: Product)
    ensures DraftTotal(DraftAdd(d, p)) == DraftTotal(d) + match FindLine(d, p.id)
                                                         case Some(k) => d[k].precio
                                                         case None => p.precio
    ensures QuantityOf(DraftAdd(d, p), p.id) == QuantityOf(d, p.id) + 1
    ensures forall id :: id != p.id ==> QuantityOf(DraftAdd(d, p), id) == QuantityOf(d, id)
  {
    match FindLine(d, p.id)
    case Some(k) =>
      var l := d[k].(cantidad := d[k].cantidad + 1);
      assert Subtotal(l) == Subtotal(d[k]) + d[k].precio by {
        assert l.precio * (d[k].cantidad + 1) == l.precio * d[k].cantidad + l.precio;
      }
      TotalUpdate(d, k, l);
    case None =>
      TotalConcat(d, [NewLine(p)]);
      SingleTotals(NewLine(p), 0);
      forall id ensures QuantityOf(DraftAdd(d, p), id) == QuantityOf(d, id) + (if id == p.id then 1 else 0) {
        QuantityConcat(d, [NewLine(p)], id);
        SingleTotals(NewLine(p), id);
      }
  }

  /** Adding keeps one line per product with positive quantities. */
  lemma DraftAddValid(d: seq<DraftLine>, p: Product)
    requires DraftValid(d)
    ensures DraftValid(DraftAdd(d, p))
  {
  }

  /**
   * Removing at line i lowers its quantity when it is above 1 and deletes the line when it is 1;
   * every other line keeps its contents and its relative order.
   */
  lemma DraftRemoveEffect(d: seq<DraftLine>, i: nat)
    requires i < |d|
    ensures d[i].cantidad > 1 ==>
      && |DraftRemove(d, i)| == |d|
      && DraftRemove(d, i)[i] == d[i].(cantidad := d[i].cantidad - 1)
      && forall j :: 0 <= j < |d| && j != i ==> DraftRemove(d, i)[j] == d[j]
    ensures d[i].cantidad <= 1 ==>
      && |DraftRemove(d, i)| == |d| - 1
      && (forall j :: 0 <= j < i ==> DraftRemove(d, i)[j] == d[j])
      && (forall j :: i <= j < |d| - 1 ==> DraftRemove(d, i)[j] == d[j + 1])
  {
  }

  /** Removing a unit lowers the total by the line's price and the product's quantity by one. */
  lemma DraftRemoveTotals(d: seq<DraftLine>, i: nat)
    requires i < |d| && d[i].cantidad >= 1
    ensures DraftTotal(DraftRemove(d, i)) == DraftTotal(d) - d[i].precio
    ensures QuantityOf(DraftRemove(d, i), d[i].id) == QuantityOf(d, d[i].id) - 1
    ensures forall id :: id != d[i].id ==> QuantityOf(DraftRemove(d, i), id) == QuantityOf(d, id)
  {
    if d[i].cantidad > 1 {
      var l := d[i].(cantidad := d[i].cantidad - 1);
      assert Subtotal(l) == Subtotal(d[i]) - d[i].precio by {
        assert l.precio * (d[i].cantidad - 1) == l.precio * d[i].cantidad - l.precio;
      }
      TotalUpdate(d, i, l);
    } else {
      assert Subtotal(d[i]) == d[i].precio;
      TotalDelete(d, i);
    }
  }

  /** Removing keeps one line per product with positive quantities. */
  lemma DraftRemoveValid(d: seq<DraftLine>, i: nat)
    requires i < |d| && DraftValid(d)
    ensures DraftValid(DraftRemove(d, i))
  {
    if d[i].cantidad <= 1 {
      var r := DraftRemove(d, i);
      forall a, b | 0 <= a < b < |r| ensures r[a].id != r[b].id {
        var a' := if a < i then a else a + 1;
        var b' := if b < i then b else b + 1;
        assert r[a] == d[a'] && r[b] == d[b'];
      }
    }
  }

  /** The listbox text of one line: f"{nombre} x{cantidad} - ${subtotal}". */
  function LineText(l: DraftLine): string {
    l.nombre + " x" + IntToString(l.cantidad) + " - $" + IntToString(Subtotal(l))
  }

  /** The listbox contents: one text per draft line, in order. */
  function DraftLines(d: seq<DraftLine>): seq<string> {
    if d == [] then [] else DraftLines(d[..|d| - 1]) + [LineText(d[|d| - 1])]
  }

  /** The listbox shows exactly one text per line, the i-th for the i-th line. */
  lemma {:induction false} DraftLinesIndex(d: seq<DraftLine>)
    ensures |DraftLines(d)| == |d|
    ensures forall i :: 0 <= i < |d| ==> DraftLines(d)[i] == LineText(d[i])
  {
    if d != [] {
      var init := d[..|d| - 1];
      DraftLinesIndex(init);
      var shown := DraftLines(d);
      assert shown == DraftLines(init) + [LineText(d[|d| - 1])];
      forall i | 0 <= i < |d|
        ensures shown[i] == LineText(d[i])
      {
        if i < |d| - 1 {
          assert shown[i] == DraftLines(init)[i];
          assert init[i] == d[i];
        }
      }
    }
  }
}
