# SistemaComandas order and table lifecycle, in Dafny

This project models the restaurant order ("comanda") core of SistemaComandas, a single-file
Tkinter and SQLite application (`sistema-comandas.py`). The database is replaced by two
maps keyed by row id:

- `tables` holds the `mesas` rows;
- `orders` holds the `comandas` rows, each with its `items_comanda` rows.

The session state of the main window is a class, `Comandas.OrderSystem`. It holds the draft
order (`comanda_actual`) and the selected table (`mesa_actual`). Its methods update that
state in place, as the application's methods do:

- a waiter builds a draft line by line and submits it;
- submitting stores a `Pendiente` order with a daily two-digit ticket (`CMD-YYYYMMDD-NN`)
  and marks the table `ocupada`;
- an order can then be completed, which frees its table once no order of it is still
  active, or cancelled, which always frees the table;
- a table can be released by hand, and can be deleted only while it has no active order.

The modules are:

- `Text`: ASCII lower-casing, Python's `str(int)` and `int(str)`, and zero padding.
- `Sequencer`: the ticket counter and the order number, and how SQLite reads the counter back.
- `Draft`: the draft as a value, with the effect of each editing operation.
- `Tables`: table rows and the five-way colour classification of `cargar_mesas`.
- `Orders`: stored orders and the queries the lifecycle rules run over them.
- `Comandas`: the `OrderSystem` class, whose invariant `Valid()` says:
  - the draft has one line per product and positive quantities;
  - order ids are the rowids `1 .. nextOrderId-1`;
  - every stored order's total is the sum of its items, and its number carries a counter in 1..99.
- `Config`: the text conversions of `ConfigManager.get` and `ConfigManager.set`.

Configuration flags, the clock (`today`), the logged-in user's name and the answers the user
gives to confirmation dialogs are parameters of the operations. Prices and totals are
integers.

Proved behaviour of the ticket counter:

- `Sequencer.DayTicketsPattern`: because the next ticket is computed from the day's
  *maximum* counter, orders 1..99 of a day get `01`..`99` and every later order of that day
  gets `01`.
- `Sequencer.AfterNinetyNine`: once `99` has been used on a day, every further order of that
  day gets `01`; the counter does not cycle on to `02`, `03`, ....

## Model

| member | source | states |
|---|---|---|
| Text.NatToString | sistema-comandas.py:1297 | `str(n)` is one or more digits, has no leading zero, and is two or more characters exactly when n >= 10 |
| Text.NatToStringValue | sistema-comandas.py:1297 | the digits `str(n)` writes denote n |
| Text.PadLeftValue | sistema-comandas.py:1861 | zero padding keeps the value, and a number below 10^w padded to width w has exactly w characters |
| Text.ParseInt | sistema-comandas.py:60 | `int()` accepts exactly a non-empty digit string, or '+' or '-' followed by one |
| Text.ParseDigits | sistema-comandas.py:60 | `int()` of plain digits is their value |
| Text.ParsePositive | sistema-comandas.py:60 | `int()` of '+' followed by digits is their value |
| Text.ParseNegative | sistema-comandas.py:60 | `int()` of '-' followed by digits is the negated value |
| Text.NatRoundTrip | sistema-comandas.py:60 | `int(str(n)) == n` for every natural n |
| Text.NegativeRoundTrip | sistema-comandas.py:60 | `int("-" + str(n)) == -n` |
| Text.IntToStringRoundTrip | sistema-comandas.py:75 | `int(str(i)) == i` for every integer, so an integer setting reads back what was stored |
| Sequencer.NextTicket | sistema-comandas.py:1857-1861 | the next counter is in 1..99; it is last+1 below 99 and 1 after 99 |
| Sequencer.TicketText | sistema-comandas.py:1861 | the ticket text has exactly two digits, and they denote the next counter |
| Sequencer.DigitPrefix | sistema-comandas.py:1848 | the leading digit run is a prefix of the text made of digits and is the longest one: the character after it, if any, is not a digit |
| Sequencer.Stamp | sistema-comandas.py:1349 | `strftime('%Y%m%d')` of the date; its digits are fixed by PadLeftValue |
| Sequencer.OrderNumber | sistema-comandas.py:1349 | `CMD-` + stamp + `-` + ticket; specified by OrderNumberSuffix |
| Sequencer.MatchesNumberPattern | sistema-comandas.py:1850 | `LIKE '%-%__'`: a '-' followed by at least two characters; OrderNumberSuffix shows built numbers match it |
| Sequencer.CastInteger | sistema-comandas.py:1848 | SQLite's `CAST(... AS INTEGER)`: optional sign, then the longest digit prefix (DigitPrefix), 0 when there is none |
| Sequencer.SuffixValue | sistema-comandas.py:1848 | `CAST(SUBSTR(numero, -2) AS INTEGER)`; OrderNumberSuffix shows it gives back a built number's counter |
| Sequencer.OrderNumberSuffix | sistema-comandas.py:1347-1349 | a built order number matches `LIKE '%-%__'`, and `CAST(SUBSTR(numero, -2) AS INTEGER)` gives back its counter |
| Sequencer.MaxStep | sistema-comandas.py:1848 | folding one more counter into a running maximum gives the maximum of the set with it |
| Sequencer.AfterNinetyNine | sistema-comandas.py:1846-1861 | when 99 has been used today, the next ticket is 1 |
| Sequencer.SeqMaxOrZero | sistema-comandas.py:1848-1855 | the result is 0 for no counters, otherwise one of the counters and no less than any of them |
| Sequencer.DayTicketsPattern | sistema-comandas.py:1843-1865 | the k-th order of a day (from 0) gets counter k+1 for k < 99 and 1 from the 100th order on |
| Draft.FindLine | sistema-comandas.py:1273-1277 | the scan finds the first line with the product's id, or reports that no line has it |
| Draft.DraftAdd | sistema-comandas.py:1273-1286 | the draft after agregar_a_comanda: bump the first line of the product or append a new one; specified by DraftAddEffect, DraftAddTotals and DraftAddValid |
| Draft.DraftRemove | sistema-comandas.py:1312-1315 | the draft after quitar_de_comanda: decrement above 1, delete at 1; specified by DraftRemoveEffect, DraftRemoveTotals and DraftRemoveValid |
| Draft.DraftTotal | sistema-comandas.py:1344 | sum of precio * cantidad over the lines; TotalConcat, TotalUpdate and TotalDelete give its algebra |
| Draft.LineText | sistema-comandas.py:1297 | the listbox text `nombre x<cantidad> - $<subtotal>` of one line; DraftLinesIndex places one per line |
| Draft.DraftAddEffect | sistema-comandas.py:1273-1287 | adding a product already present raises only its first line's quantity by 1; adding a new product appends one line with quantity 1 and the product's name, price and category |
| Draft.DraftAddTotals | sistema-comandas.py:1273-1287 | adding raises the total by one unit price (the line's stored price, or the product's for a new line) and the product's quantity by 1, and no other product's quantity changes |
| Draft.DraftAddValid | sistema-comandas.py:1273-1287 | adding keeps one line per product with positive quantities |
| Draft.DraftRemoveEffect | sistema-comandas.py:1312-1315 | removing lowers a quantity above 1 by one, and deletes a line holding 1 while keeping the other lines in order |
| Draft.DraftRemoveTotals | sistema-comandas.py:1312-1315 | removing lowers the total by the line's price and that product's quantity by 1, and no other quantity changes |
| Draft.DraftRemoveValid | sistema-comandas.py:1312-1315 | removing keeps one line per product with positive quantities |
| Draft.TotalUpdate | sistema-comandas.py:1295-1296 | replacing a line changes the total by the difference of the subtotals, and each product's quantity likewise |
| Draft.TotalDelete | sistema-comandas.py:1295-1296 | deleting a line takes its subtotal and its quantity out of the totals |
| Draft.DraftLinesIndex | sistema-comandas.py:1294-1298 | the listbox has one text per draft line, the i-th for the i-th line |
| Tables.SetState | sistema-comandas.py:1378-1380 | `UPDATE mesas SET estado` changes only that table's estado, and no row for an unknown id |
| Tables.Normalise | sistema-comandas.py:888 | the lower-cased estado read as free ('libre', 'disponible'), occupied ('ocupada') or unrecognised, as at lines 899 and 906; WrittenLabels reads the written labels |
| Tables.Classify | sistema-comandas.py:899-922 | the five-way colour choice; its result satisfies the independent decision table `Describes`, and ClassifyExactlyOne shows no other class does |
| Tables.ClassifyExactlyOne | sistema-comandas.py:887-922 | every table falls in exactly one row of the green/yellow/blue/red/grey decision table, and the classification picks it |
| Tables.WrittenLabels | sistema-comandas.py:888 | the labels 'Disponible' and 'ocupada' that the lifecycle writes (lines 1379, 1746, 1797, 1822) read back, once lower-cased, as free and occupied |
| Tables.ColoursDistinct | sistema-comandas.py:899-922 | distinct classes get distinct colours |
| Orders.CopyItemsTotal | sistema-comandas.py:1344 | the stored items copied from the draft add up to the draft total stored with the order |
| Orders.LabelsFaithful | sistema-comandas.py:894 | the stored labels name the states one to one, and the active states are exactly those the `IN ('Pendiente', 'En preparación')` filter admits |
| Orders.ActiveCount | sistema-comandas.py:893-896 | the number of the table's orders in state Pendiente or En preparación; ActiveAfterUpdate and ActiveAfterInsert track it |
| Orders.CompletedCount | sistema-comandas.py:908-912 | the number of the table's orders in state Completada |
| Orders.CopyItems | sistema-comandas.py:1370-1374 | one item per draft line with its name, quantity and price; CopyItemsTotal sums it to the draft total |
| Orders.NewOrder | sistema-comandas.py:1361-1374 | the Pendiente row inserted for a draft; NewOrderWellFormed shows it satisfies the store invariant |
| Orders.NewOrderWellFormed | sistema-comandas.py:1361-1374 | the order stored from a valid draft under a well-formed number has a total equal to its items' sum and positive quantities |
| Orders.InsertWellFormed | sistema-comandas.py:1361-1365 | writing a well-formed row keeps every stored order well formed |
| Orders.SuffixesBelowStep | sistema-comandas.py:1848-1851 | scanning one more id adds that order's counter exactly when it is dated today and matches the pattern |
| Orders.SuffixesBelowAll | sistema-comandas.py:1848-1851 | a scan past every id has seen all of today's counters |
| Orders.ActiveAfterUpdate | sistema-comandas.py:1689 | changing one order's state moves only that order in or out of its table's active set |
| Orders.ActiveAfterInsert | sistema-comandas.py:1361-1365 | a new order joins its table's active set exactly when it is active |
| Orders.SuffixesAfterInsert | sistema-comandas.py:1361-1365 | a new order dated today adds exactly its own counter to today's counters |
| Orders.NextTicketOfStore | sistema-comandas.py:1846-1861 | over the stored orders, today's maximum counter is in 0..99, and the next ticket is that maximum + 1, or 1 after 99 |
| Comandas.OrderSystem.constructor | sistema-comandas.py:161-163 | a session opens on the stored tables and orders, kept as they are, with an empty draft and no selected table |
| Comandas.OrderSystem.StatusOf | sistema-comandas.py:887-922 | the class a table's button is drawn with, from its estado and its active and completed order counts |
| Comandas.OrderSystem.ShownTableState | sistema-comandas.py:1618 | the `COALESCE(m.estado, 'N/A')` column of an order row: its table's estado, or 'N/A' |
| Comandas.OrderSystem.SelectTable | sistema-comandas.py:950-967 | an occupied table (case-insensitive) is selected only when confirmed; any other table always is |
| Comandas.OrderSystem.AddToDraft | sistema-comandas.py:1264-1287 | refused exactly when tables are required and none is selected; otherwise the draft becomes `DraftAdd` of the old draft |
| Comandas.OrderSystem.RemoveFromDraft | sistema-comandas.py:1302-1317 | without a selection nothing changes; otherwise the draft becomes `DraftRemove` at the selected line |
| Comandas.OrderSystem.ClearDraft | sistema-comandas.py:1319-1323 | a non-empty draft is emptied when confirmed; otherwise it is unchanged |
| Comandas.OrderSystem.DisplayDraft | sistema-comandas.py:1289-1300 | the loop returns the draft total and the listbox lines, one `LineText` per draft line in order |
| Comandas.OrderSystem.TodayMaxSuffix | sistema-comandas.py:1846-1855 | the scan returns the maximum counter among today's pattern-matching orders, or 0 when there is none |
| Comandas.OrderSystem.CopyDraftItems | sistema-comandas.py:1370-1374 | one item row per draft line, in order, with the line's name, quantity and unit price |
| Comandas.OrderSystem.Submit | sistema-comandas.py:1325-1415 | an empty draft or a missing required table changes nothing; otherwise exactly one Pendiente order is stored, with a fresh id, the next ticket of today, the draft total and items, and the table (if any) becomes occupied and shows as in service; the draft and the selection are reset |
| Comandas.OrderSystem.NextOrderNumber | sistema-comandas.py:1347-1349 | the number is `CMD-` + date + `-` + the ticket after today's maximum, and matches the pattern with a counter in 1..99 |
| Comandas.OrderSystem.StoreDraft | sistema-comandas.py:1344-1405 | the order goes in under the next id with the draft total, the table is occupied, and the session is reset |
| Comandas.OrderSystem.StoreOrder | sistema-comandas.py:1361-1367 | the row is stored under a fresh id, the next rowid, and no other order changes |
| Comandas.OrderSystem.OccupyTable | sistema-comandas.py:1377-1380 | the table's estado becomes 'ocupada', and with its active order it shows as in service |
| Comandas.OrderSystem.TryAutoRelease | sistema-comandas.py:1810-1829 | the table is freed, and true reported, exactly when it has no Pendiente or En preparación order; the freed table shows green |
| Comandas.OrderSystem.SetOrderState | sistema-comandas.py:1689 | only the one order's state changes |
| Comandas.OrderSystem.Complete | sistema-comandas.py:1656-1708 | an unknown order, a Completada order or a declined dialog changes nothing; an existing, not Completada, confirmed order always becomes Completada, and its table is freed exactly when no active order is left on it |
| Comandas.OrderSystem.Cancel | sistema-comandas.py:1758-1808 | unknown, Cancelada and Completada orders and a declined dialog change nothing; an active, confirmed order always becomes Cancelada, and its table is freed whatever its other orders |
| Comandas.OrderSystem.ReleaseTableOf | sistema-comandas.py:1710-1756 | the order's table is set to 'Disponible' exactly when the row does not already show it, the confirmations are given and the order has a table; a declined dialog is reported as declined; nothing else changes |
| Comandas.OrderSystem.DeleteTable | sistema-comandas.py:2693-2735 | after confirmation a table with n active orders is kept and n reported; otherwise it is deleted and no other table changes |
| Config.Get | sistema-comandas.py:48-69 | `get`: the typed reading of a setting, or the default; specified by the round-trip lemmas and GetNothingExactly |
| Config.Set | sistema-comandas.py:71-92 | `set`: the new or updated row; specified by SetOnlyTouchesKey, SetKeepsRow and the round-trip lemmas |
| Config.ParseBoolIgnoresCase | sistema-comandas.py:58 | the boolean reading does not depend on letter case |
| Config.BoolRoundTrip | sistema-comandas.py:57-58 | a boolean stored by `set` into a boolean or new setting reads back as itself |
| Config.IntRoundTrip | sistema-comandas.py:59-60 | an integer stored by `set` into an integer setting reads back as itself |
| Config.NewIntReadsAsText | sistema-comandas.py:86-88 | an integer stored under a new key gets tipo 'string' and reads back as its decimal text |
| Config.TextRoundTrip | sistema-comandas.py:63-64 | a text stored into a text or new setting reads back as itself |
| Config.SetOnlyTouchesKey | sistema-comandas.py:71-92 | `set` adds its key and leaves every other setting's reading unchanged |
| Config.SetKeepsRow | sistema-comandas.py:79-85 | an existing row keeps its tipo and description, and its valor becomes the stored text |
| Config.GetNothingExactly | sistema-comandas.py:48-69 | with no default, `get` returns nothing exactly for a missing key or an integer setting whose text `int()` rejects |

## Left out

- The Tkinter user interface is not modelled. The listbox and treeview selections become
  parameters (a line index, an order id), and message boxes become a `confirmed` flag or an
  outcome constructor.
- SQLite is not modelled: no persistence, transactions, commits or failures, and no `except`
  branch that reports a database error. Writes are atomic maps.
- Ticket PDF generation (`generar_ticket_comanda`) and the "generate ticket?" prompt are not
  modelled: printing changes no modelled state.
- The periodic table refresh (`actualizar_mesas_automatico`) is not modelled: it only redraws.
- The seconds fallback of `obtener_siguiente_numero_ticket` is not modelled: it runs only
  when the query raises.
- The clock is the `today` parameter. `DATE('now')` is UTC while `datetime.now()` is local
  time; the model takes both to be the same day.
- `LIKE` in SQLite is case-insensitive. This does not matter for the `'%-%__'` pattern, which
  has no letters.
- Comandas.OrderSystem.Complete: completes an order by id and does not model the lookup by
  `numero_comanda`. After the 99th order of a day the numbers repeat, so the application's
  `fetchone` on a repeated number may pick another row; the model does not capture that.
- Comandas.OrderSystem.Cancel: also addressed by id, for the same reason.
- Comandas.OrderSystem.ReleaseTableOf: also addressed by id, for the same reason.
- Comandas.OrderSystem.Complete: does not restrict the order to those the list shows (the
  list omits Cancelada orders). As in the code, a Cancelada order passed to it is completed.
- Comandas.OrderSystem.constructor: requires the stored orders to have the shape this code
  writes (total equal to the items' sum, positive quantities, a counter in 1..99) and
  rowids 1 .. nextId-1 with none deleted. Rows written by other tools are not modelled.
- The `mesa[3]` fallback of `seleccionar_mesa` and the old-schema fallback of `cargar_mesas`
  are not modelled; both serve the pre-migration table layout.
- Prices are integers. Python floats and the `str(float)` rendering of subtotals are not
  modelled.
- Config.Get: a float setting is returned as its text (`FloatText`), because floating point
  is not modelled. A text `float()` would reject is therefore not mapped to the default.
- Text.ParseInt: accepts an optional sign and ASCII digits only. Python's acceptance of
  surrounding whitespace, `_` separators and non-ASCII digits is not modelled.
- Text.Lower: lower-cases ASCII letters only, not all of Unicode.
- Sequencer.Stamp: pads the year to four digits. For years below 1000, `%Y` is
  platform-dependent.
- Sequencer.CastInteger: SQLite's skipping of leading whitespace is not modelled. The last
  two characters of a built order number are digits, so this does not affect built numbers.
- The state 'En preparación' is modelled and counted as active. Only the start-up state
  migration writes it, and that migration is not modelled.
- The replacement of the observations placeholder is not modelled. The observations text
  is a parameter.
- User, product, category and table CRUD screens are not modelled, nor dashboard
  statistics or the configuration dialogs. Only `eliminar_mesa`'s guard is taken from these.
- The `ConfigManager` defaults table and the `fecha_modificacion` timestamp are not modelled.
