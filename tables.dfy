/**
 * Tables (mesas) and the status a table is shown with. The stored estado is free text (the
 * table forms also write 'Ocupada', 'Reservada' and 'Fuera de servicio'); the order lifecycle
 * writes exactly two labels ('Disponible' when a table is released, 'ocupada' when an order
 * is submitted against it) and every reader lower-cases it first.
 */
module Tables {
  import opened Text

  /** A row of mesas: nombre, capacidad, estado, ubicacion. */
  datatype Table = Table(nombre: string, capacidad: int, estado: string, ubicacion: string)

  /** The label the release paths write. */
  const AVAILABLE: string := "Disponible"

  /** The label order submission writes. */
  const OCCUPIED: string := "ocupada"

  /**
   * What a stored estado means once lower-cased: 'libre' and 'disponible' are free,
   * 'ocupada' is occupied, anything else (reserved, out of service, typos) is unrecognised.
   */
  datatype Occupancy = Available | Occupied | Unrecognised

  function Normalise(estado: string): Occupancy {
    var e := Lower(estado);
    if e == "libre" || e == "disponible" then Available
    else if e == "ocupada" then Occupied
    else Unrecognised
  }

  /** UPDATE mesas SET estado = ? WHERE id = ?: no row changes when the id is unknown. */
  function SetState(ts: map<int, Table>, t: int, estado: string): (r: map<int, Table>)
    ensures r.Keys == ts.Keys
    ensures t in ts ==> r[t] == ts[t].(estado := estado)
    ensures forall u :: u in ts && u != t ==> r[u] == ts[u]
  {
    if t in ts then ts[t := ts[t].(estado := estado)] else ts
  }

  /** The five ways a table button is drawn. */
  datatype TableClass =
    | Free             // green: available, no active order
    | FreeWithPending  // yellow: marked available although orders are still active
    | ReadyToRelease   // blue: occupied, every order done, at least one completed
    | InService        // red: occupied otherwise
    | OtherState       // grey: any other estado

  /** The colour choice of cargar_mesas, from the stored estado and the two order counts. */
  function Classify(estado: string, active: nat, completed: nat): (c: TableClass)
    ensures Describes(c, Normalise(estado), active, completed)
  {
    match Normalise(estado)
    case Available => if active > 0 then FreeWithPending else Free
    case Occupied => if completed > 0 && active == 0 then ReadyToRelease else InService
    case Unrecognised => OtherState
  }

  function Colour(c: TableClass): string {
    match c
    case Free => "#28A745"
    case FreeWithPending => "#FFC107"
    case ReadyToRelease => "#17A2B8"
    case InService => "#DC3545"
    case OtherState => "#6C757D"
  }

  /** The decision table the classification implements, one row per class. */
  ghost predicate Describes(c: TableClass, occ: Occupancy, active: nat, completed: nat) {
    match c
    case Free => occ == Available && active == 0
    case FreeWithPending => occ == Available && active > 0
    case ReadyToRelease => occ == Occupied && active == 0 && completed >= 1
    case InService => occ == Occupied && (active >= 1 || completed == 0)
    case OtherState => occ == Unrecognised
  }

  /** Every input falls in exactly one row of the decision table, and Classify picks that row. */
  lemma ClassifyExactlyOne(estado: string, active: nat, completed: nat)
    ensures forall c :: Describes(c, Normalise(estado), active, completed) <==> c == Classify(estado, active, completed)
  {
  }

  /** The two labels the code writes are read back as free and occupied. */
  lemma WrittenLabels()
    ensures Normalise(AVAILABLE) == Available
    ensures Normalise(OCCUPIED) == Occupied
  {
    assert Lower(AVAILABLE) == "disponible";
    assert Lower(OCCUPIED) == "ocupada";
  }

  /** Distinct classes are drawn in distinct colours. */
  lemma ColoursDistinct(c1: TableClass, c2: TableClass)
    ensures Colour(c1) == Colour(c2) ==> c1 == c2
  {
  }
}
