/**
 * The ticket sequencer: the two-digit daily counter of obtener_siguiente_numero_ticket and the
 * order number "CMD-YYYYMMDD-NN" that finalizar_comanda builds from it, together with the
 * SQLite expression that reads the counter back out of stored order numbers.
 */
module Sequencer {
  import opened Text

  /** A calendar day as datetime.now() gives it; the clock is a parameter of the model. */
  datatype Date = Date(year: nat, month: nat, day: nat)

  /** strftime('%Y%m%d'), with every field zero padded. */
  function Stamp(d: Date): string {
    PadLeft(d.year, 4) + PadLeft(d.month, 2) + PadLeft(d.day, 2)
  }

  /** The counter after the largest one used today: (last + 1) % 100, and 1 in place of 0. */
  function NextTicket(lastUsed: int): (n: int)
    ensures 1 <= n <= 99
    ensures 0 <= lastUsed < 99 ==> n == lastUsed + 1
    ensures lastUsed == 99 ==> n == 1
  {
    var next := (lastUsed + 1) % 100;
    if next == 0 then 1 else next
  }

  /** f"{n:02d}" of the next counter: always exactly two decimal digits. */
  function TicketText(lastUsed: int): (t: string)
    ensures |t| == 2 && AllDigits(t) && DigitsValue(t) == NextTicket(lastUsed)
  {
    var n := NextTicket(lastUsed);
    assert Pow10(2) == 100;
    PadLeftValue(n, 2);
    PadLeft(n, 2)
  }

  /** numero_comanda = f"CMD-{fecha:%Y%m%d}-{ticket}". */
  function OrderNumber(today: Date, ticket: string): string {
    "CMD-" + Stamp(today) + "-" + ticket
  }

  /** numero_comanda LIKE '%-%__': some '-' with at least two characters after it. */
  predicate MatchesNumberPattern(numero: string) {
    |numero| >= 3 && '-' in numero[..|numero| - 2]
  }

  /** The longest leading run of decimal digits. */
  function DigitPrefix(t: string): (p: string)
    ensures AllDigits(p) && p <= t
    ensures AllDigits(t) ==> p == t
    ensures |p| < |t| ==> !IsDigit(t[|p|])
  {
    if t == [] || !IsDigit(t[0]) then [] else [t[0]] + DigitPrefix(t[1..])
  }

  /** SQLite's CAST(t AS INTEGER): an optional sign, then the leading digits; 0 when there are none. */
  function CastInteger(t: string): int {
    if |t| >= 1 && t[0] == '-' then 0 - DigitsValue(DigitPrefix(t[1..])) as int
    else if |t| >= 1 && t[0] == '+' then DigitsValue(DigitPrefix(t[1..]))
    else DigitsValue(DigitPrefix(t))
  }

  /** CAST(SUBSTR(numero, -2) AS INTEGER): the counter a stored order number carries. */
  function SuffixValue(numero: string): int {
    CastInteger(numero[if |numero| >= 2 then |numero| - 2 else 0..])
  }

  /**
   * The number built for an order is found again by the query that finds today's maximum:
   * it matches the LIKE pattern and its last two characters cast back to the counter.
   */
  lemma OrderNumberSuffix(today: Date, lastUsed: int)
    ensures MatchesNumberPattern(OrderNumber(today, TicketText(lastUsed)))
    ensures SuffixValue(OrderNumber(today, TicketText(lastUsed))) == NextTicket(lastUsed)
  {
    var t := TicketText(lastUsed);
    var numero := OrderNumber(today, t);
    assert numero[..|numero| - 2][|numero| - 3] == '-';
    assert numero[|numero| - 2..] == t;
    assert IsDigit(t[0]);
  }

  /**
   * `MAX(...)` over the counters of today's orders, read as 0 when there is none
   * (`resultado[0] if resultado and resultado[0] else 0`; a maximum of 0 also reads as 0).
   */
  ghost predicate IsMaxOrZero(used: set<int>, m: int) {
    (used == {} && m == 0) || (m in used && forall t :: t in used ==> t <= m)
  }

  /** Folding one more counter into a running maximum. */
  lemma MaxStep(used: set<int>, m: int, found: bool, v: int)
    requires IsMaxOrZero(used, m) && (found <==> used != {})
    ensures IsMaxOrZero(used + {v}, if !found || v > m then v else m)
  {
    if !found {
      assert used + {v} == {v};
    }
  }

  /** Once every counter of the day lies in 1..99 and 99 has been used, each further order gets 1. */
  lemma AfterNinetyNine(used: set<int>, m: int)
    requires forall t :: t in used ==> 1 <= t <= 99
    requires 99 in used && IsMaxOrZero(used, m)
    ensures NextTicket(m) == 1
  {
  }

  /** The largest element of a sequence, 0 for the empty one. */
  function SeqMaxOrZero(s: seq<int>): (m: int)
    ensures s == [] ==> m == 0
    ensures s != [] ==> m in s && forall k :: 0 <= k < |s| ==> s[k] <= m
  {
    if s == [] then 0
    else if |s| == 1 then s[0]
    else
      var rest := SeqMaxOrZero(s[..|s| - 1]);
      if s[|s| - 1] > rest then s[|s| - 1] else rest
  }

  /** The counters given to the first n orders of one day, each from the maximum of those before it. */
  function DayTickets(n: nat): (s: seq<int>)
    ensures |s| == n
  {
    if n == 0 then []
    else
      var earlier := DayTickets(n - 1);
      earlier + [NextTicket(SeqMaxOrZero(earlier))]
  }

  /** Orders 1..99 of a day get counters 1..99; the 100th and every later one get 1. */
  lemma {:induction false} DayTicketsPattern(n: nat)
    ensures forall k :: 0 <= k < n ==> DayTickets(n)[k] == if k < 99 then k + 1 else 1
  {
    if n > 0 {
      DayTicketsPattern(n - 1);
      var earlier := DayTickets(n - 1);
      var top := if n - 1 < 99 then n - 1 else 99;
      if n - 1 > 0 {
        assert earlier[top - 1] == top;
        assert forall k :: 0 <= k < |earlier| ==> earlier[k] <= top;
      }
      assert SeqMaxOrZero(earlier) == top;
    }
  }
}
