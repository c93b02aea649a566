/**
 * The cash ledger: an append-only list of movements (INGRESO / EGRESO) and,
 * per calendar day, at most one immutable closure snapshot. Balances and
 * summaries are folds over the movements; every write goes through the
 * gateway, which refuses a bad tipo, a non-positive monto and any instant
 * of a closed day.
 */
module Cash {
  import opened Schema
  import opened Text
  import opened Store

  const MicrosPerSecond: int := 1_000_000
  const MicrosPerDay: int := 86_400 * MicrosPerSecond

  /** `fecha.date()`: the day (counted from the epoch) an instant falls in. */
  function Day(t: int): int
  {
    t / MicrosPerDay
  }

  /** `datetime.combine(d, time.min)` */
  function DayStart(d: int): int
  {
    d * MicrosPerDay
  }

  /** `datetime.combine(d, time.max)`, that is 23:59:59.999999 */
  function DayEnd(d: int): int
  {
    d * MicrosPerDay + MicrosPerDay - 1
  }

  /** `_dt_range(d)`: the first and the last instant of day `d`. */
  function DtRange(d: int): (r: (int, int))
    ensures forall t :: r.0 <= t <= r.1 <==> Day(t) == d
  {
    (DayStart(d), DayEnd(d))
  }

  lemma InDay(t: int, d: int)
    ensures DayStart(d) <= t <= DayEnd(d) <==> Day(t) == d
  {
    var r := DtRange(d);
  }

  /** `esta_cerrado(d)` */
  predicate EstaCerrado(closures: map<int, Closure>, d: int)
  {
    d in closures
  }

  // ----------------------------------------------------------------------
  // Balances
  // ----------------------------------------------------------------------

  predicate InWindow(t: int, from: Option<int>, to: Option<int>)
  {
    (from.Some? ==> from.value <= t) && (to.Some? ==> t <= to.value)
  }

  function Contribution(m: Movement, k: Kind, from: Option<int>, to: Option<int>): real
  {
    if m.tipo == k && InWindow(m.fecha, from, to) then m.monto else 0.0
  }

  /** `coalesce(sum(monto), 0)` over the movements of kind `k` inside the window. */
  function Total(ms: seq<Movement>, k: Kind, from: Option<int>, to: Option<int>): real
    decreases |ms|
  {
    if ms == [] then 0.0
    else Total(ms[..|ms| - 1], k, from, to) + Contribution(ms[|ms| - 1], k, from, to)
  }

  /**
   * `obtener_saldo(hasta)`: ingresos minus egresos up to `hasta` inclusive,
   * or over everything. An empty ledger, or one whose movements all come
   * after the cut-off, has balance 0.
   */
  function ObtenerSaldo(ms: seq<Movement>, hasta: Option<int>): (r: real)
    ensures ms == [] ==> r == 0.0
    ensures hasta.Some? && (forall i :: 0 <= i < |ms| ==> ms[i].fecha > hasta.value) ==> r == 0.0
  {
    if hasta.Some? && (forall i :: 0 <= i < |ms| ==> ms[i].fecha > hasta.value) then
      TotalOfQuietWindow(ms, Ingreso, None, hasta);
      TotalOfQuietWindow(ms, Egreso, None, hasta);
      Total(ms, Ingreso, None, hasta) - Total(ms, Egreso, None, hasta)
    else
      Total(ms, Ingreso, None, hasta) - Total(ms, Egreso, None, hasta)
  }

  /** What one movement does to the cash: an ingreso adds, an egreso takes away. */
  function Signed(m: Movement): real
  {
    match m.tipo
    case Ingreso => m.monto
    case Egreso => -m.monto
  }

  /** The balance as one running sum of signed amounts, oldest movement first. */
  function RunningBalance(ms: seq<Movement>, hasta: Option<int>): real
  {
    if ms == [] then 0.0
    else (if InWindow(ms[0].fecha, None, hasta) then Signed(ms[0]) else 0.0) + RunningBalance(ms[1..], hasta)
  }

  lemma {:induction false} TotalPrepend(m: Movement, ms: seq<Movement>, k: Kind, from: Option<int>, to: Option<int>)
    ensures Total([m] + ms, k, from, to) == Contribution(m, k, from, to) + Total(ms, k, from, to)
    decreases |ms|
  {
    if ms == [] {
      assert ([m] + ms)[..0] == [];
    } else {
      var n := |ms|;
      assert ([m] + ms)[..n] == [m] + ms[..n - 1];
      TotalPrepend(m, ms[..n - 1], k, from, to);
    }
  }

  /**
   * The balance query agrees with the running sum of signed amounts: an
   * empty ledger has balance 0 and each movement inside the cut-off moves
   * the balance by its amount, in the direction of its tipo.
   */
  lemma {:induction false} SaldoIsRunningBalance(ms: seq<Movement>, hasta: Option<int>)
    ensures ObtenerSaldo(ms, hasta) == RunningBalance(ms, hasta)
    decreases |ms|
  {
    if ms != [] {
      assert ms == [ms[0]] + ms[1..];
      TotalPrepend(ms[0], ms[1..], Ingreso, None, hasta);
      TotalPrepend(ms[0], ms[1..], Egreso, None, hasta);
      SaldoIsRunningBalance(ms[1..], hasta);
    }
  }

  /** Appending a movement moves the balance by that movement alone, when it is inside the cut-off. */
  lemma SaldoAfterAppend(ms: seq<Movement>, m: Movement, hasta: Option<int>)
    ensures ObtenerSaldo(ms + [m], hasta)
         == ObtenerSaldo(ms, hasta) + (if InWindow(m.fecha, None, hasta) then Signed(m) else 0.0)
  {
    assert (ms + [m])[..|ms|] == ms;
  }

  /** Splitting a window at `b`: everything up to `c` is everything up to `b` plus (b, c]. */
  lemma {:induction false} TotalSplit(ms: seq<Movement>, k: Kind, from: Option<int>, b: int, c: int)
    requires b <= c
    requires from.Some? ==> from.value <= b + 1
    ensures Total(ms, k, from, Some(c)) == Total(ms, k, from, Some(b)) + Total(ms, k, Some(b + 1), Some(c))
    decreases |ms|
  {
    if ms != [] {
      TotalSplit(ms[..|ms| - 1], k, from, b, c);
    }
  }

  /** Leaving the end of a window open: everything is everything up to `b` plus everything after `b`. */
  lemma {:induction false} TotalSplitOpen(ms: seq<Movement>, k: Kind, b: int)
    ensures Total(ms, k, None, None) == Total(ms, k, None, Some(b)) + Total(ms, k, Some(b + 1), None)
    decreases |ms|
  {
    if ms != [] {
      TotalSplitOpen(ms[..|ms| - 1], k, b);
    }
  }

  lemma {:induction false} TotalOfQuietWindow(ms: seq<Movement>, k: Kind, from: Option<int>, to: Option<int>)
    requires forall i :: 0 <= i < |ms| ==> !InWindow(ms[i].fecha, from, to)
    ensures Total(ms, k, from, to) == 0.0
    decreases |ms|
  {
    if ms != [] {
      TotalOfQuietWindow(ms[..|ms| - 1], k, from, to);
    }
  }

  // ----------------------------------------------------------------------
  // Summaries
  // ----------------------------------------------------------------------

  /** The dict returned by resumen_del_dia / resumen_rango; a day summary has desde == hasta. */
  datatype Resumen = Resumen(desde: int, hasta: int, ingresos: real, egresos: real, saldoInicial: real, saldoFinal: real)

  /**
   * The opening balance of a period that starts at instant `start`: every
   * movement strictly before `start` (the evidently intended "saldo hasta el
   * dia anterior"; see OpeningBalanceAsWritten for the code's cut-off).
   */
  function OpeningBalance(ms: seq<Movement>, start: int): (r: real)
    ensures r == ObtenerSaldo(ms, None) - (Total(ms, Ingreso, Some(start), None) - Total(ms, Egreso, Some(start), None))
  {
    TotalSplitOpen(ms, Ingreso, start - 1);
    TotalSplitOpen(ms, Egreso, start - 1);
    ObtenerSaldo(ms, Some(start - 1))
  }

  /** The code's cut-off, `start - timedelta(seconds=1)`, which misses the last second before `start`. */
  function OpeningBalanceAsWritten(ms: seq<Movement>, start: int): real
  {
    ObtenerSaldo(ms, Some(start - MicrosPerSecond))
  }

  /**
   * Sums over [start of d1, end of d2], opening balance before d1, closing =
   * opening + ingresos - egresos; for an ordered range the closing balance is
   * the balance at the last instant of d2.
   */
  function Summarize(ms: seq<Movement>, d1: int, d2: int): (r: Resumen)
    ensures r.desde == d1 && r.hasta == d2
    ensures r.saldoInicial == OpeningBalance(ms, DayStart(d1))
    ensures r.saldoFinal == r.saldoInicial + r.ingresos - r.egresos
    ensures d1 <= d2 ==> r.saldoFinal == ObtenerSaldo(ms, Some(DayEnd(d2)))
  {
    if d1 <= d2 then
      TotalSplit(ms, Ingreso, None, DayStart(d1) - 1, DayEnd(d2));
      TotalSplit(ms, Egreso, None, DayStart(d1) - 1, DayEnd(d2));
      SummaryRow(ms, d1, d2)
    else
      SummaryRow(ms, d1, d2)
  }

  function SummaryRow(ms: seq<Movement>, d1: int, d2: int): Resumen
  {
    var start := DtRange(d1).0;
    var end := DtRange(d2).1;
    var ingresos := Total(ms, Ingreso, Some(start), Some(end));
    var egresos := Total(ms, Egreso, Some(start), Some(end));
    var saldoInicial := OpeningBalance(ms, start);
    Resumen(d1, d2, ingresos, egresos, saldoInicial, saldoInicial + ingresos - egresos)
  }

  /** `resumen_del_dia(d)`: the day's totals, opening before the day and closing at its last instant. */
  function ResumenDelDia(ms: seq<Movement>, d: int): (r: Resumen)
    ensures r.desde == d && r.hasta == d
    ensures r.saldoInicial == OpeningBalance(ms, DayStart(d))
    ensures r.saldoFinal == r.saldoInicial + r.ingresos - r.egresos
    ensures r.saldoFinal == ObtenerSaldo(ms, Some(DayEnd(d)))
  {
    Summarize(ms, d, d)
  }

  /** `resumen_rango(d1, d2)`: bounds given in reverse order are swapped first. */
  function ResumenRango(ms: seq<Movement>, d1: int, d2: int): (r: Resumen)
    ensures r.desde <= r.hasta
  {
    if d2 < d1 then Summarize(ms, d2, d1) else Summarize(ms, d1, d2)
  }

  /** The closing balance of a period is the balance at the period's last instant. */
  lemma ClosingIsBalanceAtEnd(ms: seq<Movement>, d1: int, d2: int)
    requires d1 <= d2
    ensures Summarize(ms, d1, d2).saldoFinal == ObtenerSaldo(ms, Some(DayEnd(d2)))
  {
    TotalSplit(ms, Ingreso, None, DayStart(d1) - 1, DayEnd(d2));
    TotalSplit(ms, Egreso, None, DayStart(d1) - 1, DayEnd(d2));
  }

  /** Day d's saldo_final is day d+1's saldo_inicial: no movement falls between two days. */
  lemma ConsecutiveDays(ms: seq<Movement>, d: int)
    ensures ResumenDelDia(ms, d).saldoFinal == ResumenDelDia(ms, d + 1).saldoInicial
  {
    ClosingIsBalanceAtEnd(ms, d, d);
    assert DayEnd(d) == DayStart(d + 1) - 1;
  }

  /** A day without movements has no ingresos or egresos, and closes at its opening balance. */
  lemma QuietDay(ms: seq<Movement>, d: int)
    requires forall i :: 0 <= i < |ms| ==> Day(ms[i].fecha) != d
    ensures ResumenDelDia(ms, d).ingresos == 0.0 && ResumenDelDia(ms, d).egresos == 0.0
    ensures ResumenDelDia(ms, d).saldoFinal == ResumenDelDia(ms, d).saldoInicial
  {
    forall i | 0 <= i < |ms| ensures !InWindow(ms[i].fecha, Some(DayStart(d)), Some(DayEnd(d))) {
      InDay(ms[i].fecha, d);
    }
    TotalOfQuietWindow(ms, Ingreso, Some(DayStart(d)), Some(DayEnd(d)));
    TotalOfQuietWindow(ms, Egreso, Some(DayStart(d)), Some(DayEnd(d)));
  }

  /** The order of the two bounds does not matter. */
  lemma RangeSymmetric(ms: seq<Movement>, d1: int, d2: int)
    ensures ResumenRango(ms, d1, d2) == ResumenRango(ms, d2, d1)
  {
  }

  /** A one-day range is that day's summary. */
  lemma RangeOfOneDay(ms: seq<Movement>, d: int)
    ensures ResumenRango(ms, d, d) == ResumenDelDia(ms, d)
  {
  }

  /**
   * Extending a range by one day adds that day's ingresos and egresos, keeps
   * the opening balance and ends at that day's closing balance.
   */
  lemma RangeExtendsByOneDay(ms: seq<Movement>, d1: int, d2: int)
    requires d1 <= d2
    ensures var longer, shorter, day := ResumenRango(ms, d1, d2 + 1), ResumenRango(ms, d1, d2), ResumenDelDia(ms, d2 + 1);
      && longer.ingresos == shorter.ingresos + day.ingresos
      && longer.egresos == shorter.egresos + day.egresos
      && longer.saldoInicial == shorter.saldoInicial
      && longer.saldoFinal == day.saldoFinal
  {
    TotalSplit(ms, Ingreso, Some(DayStart(d1)), DayEnd(d2), DayEnd(d2 + 1));
    TotalSplit(ms, Egreso, Some(DayStart(d1)), DayEnd(d2), DayEnd(d2 + 1));
    assert DayEnd(d2) + 1 == DayStart(d2 + 1);
    ClosingIsBalanceAtEnd(ms, d1, d2 + 1);
    ClosingIsBalanceAtEnd(ms, d2 + 1, d2 + 1);
  }

  /** The code's opening balance falls short of the intended one by the movements of the last second before `start`. */
  lemma AsWrittenOpeningMissesLastSecond(ms: seq<Movement>, start: int)
    ensures OpeningBalance(ms, start)
         == OpeningBalanceAsWritten(ms, start)
          + Total(ms, Ingreso, Some(start - MicrosPerSecond + 1), Some(start - 1))
          - Total(ms, Egreso, Some(start - MicrosPerSecond + 1), Some(start - 1))
  {
    TotalSplit(ms, Ingreso, None, start - MicrosPerSecond, start - 1);
    TotalSplit(ms, Egreso, None, start - MicrosPerSecond, start - 1);
  }

  /**
   * An INGRESO of 100 at 23:59:59.5 on day 0 is in day 0's closing balance but
   * not in the code's opening balance of day 1, while the corrected opening
   * balance carries it over.
   */
  lemma AsWrittenOpeningBreaksCarryOver()
    ensures var ms := [Movement(1, Ingreso, "Venta", 100.0, None, None, DayEnd(0) - 499_999)];
      && ResumenDelDia(ms, 0).saldoFinal == 100.0
      && OpeningBalanceAsWritten(ms, DayStart(1)) == 0.0
      && ResumenDelDia(ms, 1).saldoInicial == 100.0
  {
    var ms := [Movement(1, Ingreso, "Venta", 100.0, None, None, DayEnd(0) - 499_999)];
    assert ms[..0] == [];
  }

  // ----------------------------------------------------------------------
  // Listing
  // ----------------------------------------------------------------------

  /** The filters of `listar_movimientos`; `fechaDesde` / `fechaHasta` are days, "" stands for no tipo / no text. */
  datatype MovementQuery = MovementQuery(limit: int, fechaDesde: Option<int>, fechaHasta: Option<int>, tipo: string, q: string)

  /** `concepto ILIKE %term% OR referencia ILIKE ... OR observacion ILIKE ...`; a NULL column never matches. */
  predicate TextMatches(m: Movement, term: string)
  {
    || ILike(m.concepto, term)
    || (m.referencia.Some? && ILike(m.referencia.value, term))
    || (m.observacion.Some? && ILike(m.observacion.value, term))
  }

  predicate MatchesQuery(m: Movement, f: MovementQuery)
  {
    && (f.fechaDesde.Some? ==> m.fecha >= DayStart(f.fechaDesde.value))
    && (f.fechaHasta.Some? ==> m.fecha <= DayEnd(f.fechaHasta.value))
    && (Strip(f.tipo) != [] ==> KindName(m.tipo) == Upper(Strip(f.tipo)))
    && (Strip(f.q) != [] ==> TextMatches(m, Strip(f.q)))
  }

  /** SQLite reads a negative LIMIT as no limit. */
  function Cap(limit: int, n: nat): nat
  {
    if limit < 0 then n else limit
  }

  /** Movement ids are 1, 2, 3, ... in ledger order. */
  predicate SequentialIds(ms: seq<Movement>)
  {
    forall i :: 0 <= i < |ms| ==> ms[i].id == i + 1
  }

  /** The (at most `cap`) newest movements that pass `keep`, newest first. */
  function Newest(ms: seq<Movement>, keep: Movement -> bool, cap: nat): (r: seq<Movement>)
    ensures |r| <= cap && |r| <= |ms|
    ensures forall i :: 0 <= i < |r| ==> r[i] in ms && keep(r[i])
    decreases |ms|
  {
    if ms == [] || cap == 0 then []
    else
      var prefix := ms[..|ms| - 1];
      var last := ms[|ms| - 1];
      assert forall m :: m in prefix ==> m in ms;
      if keep(last) then [last] + Newest(prefix, keep, cap - 1) else Newest(prefix, keep, cap)
  }

  /** Below the cap, or when every movement was taken, nothing that passes is missing. */
  lemma {:induction false} NewestComplete(ms: seq<Movement>, keep: Movement -> bool, cap: nat)
    ensures var r := Newest(ms, keep, cap);
      |r| < cap || |r| == |ms| ==> forall j :: 0 <= j < |ms| && keep(ms[j]) ==> ms[j] in r
    decreases |ms|
  {
    if ms != [] && cap != 0 {
      var prefix := ms[..|ms| - 1];
      assert forall j :: 0 <= j < |ms| - 1 ==> prefix[j] == ms[j];
      if keep(ms[|ms| - 1]) {
        NewestComplete(prefix, keep, cap - 1);
      } else {
        NewestComplete(prefix, keep, cap);
      }
    }
  }

  predicate IdsDecrease(ms: seq<Movement>)
  {
    forall i, j :: 0 <= i < j < |ms| ==> ms[i].id > ms[j].id
  }

  /** With ids 1, 2, 3, ... every movement listed has an id in 1..|ms|. */
  lemma NewestIdsInRange(ms: seq<Movement>, keep: Movement -> bool, cap: nat)
    requires SequentialIds(ms)
    ensures forall i :: 0 <= i < |Newest(ms, keep, cap)| ==> 1 <= Newest(ms, keep, cap)[i].id <= |ms|
  {
    var r := Newest(ms, keep, cap);
    forall i | 0 <= i < |r| ensures 1 <= r[i].id <= |ms| {
      var j :| 0 <= j < |ms| && ms[j] == r[i];
    }
  }

  /** With ids 1, 2, 3, ... the listing is in strictly decreasing id order. */
  lemma {:induction false} NewestDecreasing(ms: seq<Movement>, keep: Movement -> bool, cap: nat)
    requires SequentialIds(ms)
    ensures IdsDecrease(Newest(ms, keep, cap))
    decreases |ms|
  {
    if ms != [] && cap != 0 {
      var prefix := ms[..|ms| - 1];
      assert SequentialIds(prefix);
      if keep(ms[|ms| - 1]) {
        NewestDecreasing(prefix, keep, cap - 1);
        NewestIdsInRange(prefix, keep, cap - 1);
        var rest := Newest(prefix, keep, cap - 1);
        var r := [ms[|ms| - 1]] + rest;
        assert Newest(ms, keep, cap) == r;
        forall i, j | 0 <= i < j < |r| ensures r[i].id > r[j].id {
          assert r[j] == rest[j - 1] && r[j].id <= |ms| - 1;
          if i > 0 {
            assert r[i] == rest[i - 1];
          } else {
            assert r[i].id == |ms|;
          }
        }
      } else {
        NewestDecreasing(prefix, keep, cap);
        var r := Newest(prefix, keep, cap);
        assert Newest(ms, keep, cap) == r;
      }
    }
  }

  /** With ids 1, 2, 3, ... a movement that passes but is left out is older than every one listed. */
  lemma {:induction false} NewestSkipsOnlyOlder(ms: seq<Movement>, keep: Movement -> bool, cap: nat)
    requires SequentialIds(ms)
    ensures var r := Newest(ms, keep, cap);
      forall j :: 0 <= j < |ms| && keep(ms[j]) && ms[j] !in r ==>
        forall i :: 0 <= i < |r| ==> ms[j].id < r[i].id
    decreases |ms|
  {
    if ms != [] && cap != 0 {
      var prefix := ms[..|ms| - 1];
      var last := ms[|ms| - 1];
      assert SequentialIds(prefix);
      if keep(last) {
        var rest := Newest(prefix, keep, cap - 1);
        var r := [last] + rest;
        assert Newest(ms, keep, cap) == r;
        NewestSkipsOnlyOlder(prefix, keep, cap - 1);
        forall j | 0 <= j < |ms| && keep(ms[j]) && ms[j] !in r
          ensures forall i :: 0 <= i < |r| ==> ms[j].id < r[i].id
        {
          assert j < |ms| - 1;
          assert prefix[j] == ms[j];
          assert ms[j] !in rest;
          forall i | 0 <= i < |r| ensures ms[j].id < r[i].id {
            if i > 0 {
              assert r[i] == rest[i - 1];
            } else {
              assert r[0] == last && last.id == |ms| && ms[j].id == j + 1;
            }
          }
        }
      } else {
        NewestSkipsOnlyOlder(prefix, keep, cap);
        assert Newest(ms, keep, cap) == Newest(prefix, keep, cap);
        assert forall j :: 0 <= j < |ms| - 1 ==> prefix[j] == ms[j];
      }
    }
  }

  /**
   * `listar_movimientos`: at most `limit` movements, each inside the day
   * bounds and matching the tipo and text filters.
   */
  function ListarMovimientos(ms: seq<Movement>, f: MovementQuery): (r: seq<Movement>)
    ensures f.limit >= 0 ==> |r| <= f.limit
    ensures forall i :: 0 <= i < |r| ==> r[i] in ms && MatchesQuery(r[i], f)
  {
    Newest(ms, m => MatchesQuery(m, f), Cap(f.limit, |ms|))
  }

  /**
   * The listing is newest first; a matching movement is left out only when
   * the listing is full, and then it is older than every movement listed.
   */
  lemma ListingIsNewestFirst(ms: seq<Movement>, f: MovementQuery)
    requires SequentialIds(ms)
    ensures var r := ListarMovimientos(ms, f);
      && (forall i, j :: 0 <= i < j < |r| ==> r[i].id > r[j].id)
      && (forall m :: m in ms && MatchesQuery(m, f) && m !in r ==>
            && f.limit >= 0 && |r| == f.limit
            && forall i :: 0 <= i < |r| ==> m.id < r[i].id)
  {
    var cap := Cap(f.limit, |ms|);
    NewestDecreasing(ms, m => MatchesQuery(m, f), cap);
    NewestSkipsOnlyOlder(ms, m => MatchesQuery(m, f), cap);
    NewestComplete(ms, m => MatchesQuery(m, f), cap);
    var r := ListarMovimientos(ms, f);
    forall m | m in ms && MatchesQuery(m, f) && m !in r
      ensures f.limit >= 0 && |r| == f.limit
      ensures forall i :: 0 <= i < |r| ==> m.id < r[i].id
    {
      var j :| 0 <= j < |ms| && ms[j] == m;
    }
  }

  // ----------------------------------------------------------------------
  // The write gateway
  // ----------------------------------------------------------------------

  /** `(tipo or "").strip().upper()` must be INGRESO or EGRESO. */
  function NormalizeKind(tipo: string): (r: Option<Kind>)
    ensures r.Some? <==> Upper(Strip(tipo)) == KindName(Ingreso) || Upper(Strip(tipo)) == KindName(Egreso)
    ensures r.Some? ==> KindName(r.value) == Upper(Strip(tipo))
  {
    var t := Upper(Strip(tipo));
    if t == "INGRESO" then Some(Ingreso) else if t == "EGRESO" then Some(Egreso) else None
  }

  /** The stored tipo normalises back to itself. */
  lemma NormalizeKindName(k: Kind)
    ensures NormalizeKind(KindName(k)) == Some(k)
  {
    StripOfStripped(KindName(k));
  }

  lemma UpperLowerKindName(k: Kind)
    ensures var name := Lower(KindName(k));
      name != [] && IsStripped(name) && Upper(name) == KindName(k)
  {
    var name := Lower(KindName(k));
    var upper := Upper(name);
    assert |upper| == |KindName(k)|;
    forall i | 0 <= i < |upper| ensures upper[i] == KindName(k)[i] {
      assert 'A' <= KindName(k)[i] <= 'Z';
    }
  }

  /** Letter case and surrounding whitespace do not matter: " egreso " is EGRESO. */
  lemma NormalizeKindLoose(k: Kind, pad: string)
    requires AllSpace(pad)
    ensures NormalizeKind(pad + Lower(KindName(k)) + pad) == Some(k)
  {
    var name := Lower(KindName(k));
    UpperLowerKindName(k);
    StripPadded(pad, name);
  }

  /** `(concepto or "").strip() or ("Movimiento " + tipo)` */
  function ConceptOrDefault(concepto: string, k: Kind): (r: string)
    ensures r != [] && IsStripped(r)
    ensures !AllSpace(concepto) ==> r == Strip(concepto)
    ensures AllSpace(concepto) ==> r == "Movimiento " + KindName(k)
  {
    StripBlank(concepto);
    var c := Strip(concepto);
    if c == [] then "Movimiento " + KindName(k) else c
  }

  /** `fecha or datetime.now()` */
  function OrNow(fecha: Option<int>, now: int): int
  {
    if fecha.Some? then fecha.value else now
  }

  /**
   * The checks and the row shared by registrar_movimiento and
   * registrar_movimiento_en_db, in their order: tipo, then monto, then the
   * closed day; the new row gets the next id.
   */
  function StageMovement(ms: seq<Movement>, closures: map<int, Closure>, tipo: string, concepto: string, monto: real,
                         referencia: string, observacion: string, fecha: int): (r: Result<Movement>)
    ensures NormalizeKind(tipo).None? ==> r == Err(InvalidKind)
    ensures NormalizeKind(tipo).Some? && monto <= 0.0 ==> r == Err(NonPositiveAmount)
    ensures NormalizeKind(tipo).Some? && monto > 0.0 && EstaCerrado(closures, Day(fecha)) ==> r == Err(DayClosed(Day(fecha)))
    ensures r.Ok? <==> NormalizeKind(tipo).Some? && monto > 0.0 && !EstaCerrado(closures, Day(fecha))
    ensures r.Ok? ==>
      && Some(r.value.tipo) == NormalizeKind(tipo)
      && r.value.id == |ms| + 1
      && r.value.monto == monto && r.value.fecha == fecha
      && r.value.concepto == ConceptOrDefault(concepto, NormalizeKind(tipo).value)
      && r.value.concepto != [] && IsStripped(r.value.concepto)
      && r.value.referencia == OrNone(referencia)
      && r.value.observacion == OrNone(observacion)
  {
    match NormalizeKind(tipo)
    case None => Err(InvalidKind)
    case Some(k) => StageKind(ms, closures, k, concepto, monto, referencia, observacion, fecha)
  }

  /** The gateway past its tipo check, for a tipo that normalises to `k`: monto, then the closed day. */
  function StageKind(ms: seq<Movement>, closures: map<int, Closure>, k: Kind, concepto: string, monto: real,
                     referencia: string, observacion: string, fecha: int): (r: Result<Movement>)
    ensures monto <= 0.0 ==> r == Err(NonPositiveAmount)
    ensures monto > 0.0 && EstaCerrado(closures, Day(fecha)) ==> r == Err(DayClosed(Day(fecha)))
    ensures r.Ok? <==> monto > 0.0 && !EstaCerrado(closures, Day(fecha))
    ensures r.Ok? ==>
      && r.value.tipo == k
      && r.value.id == |ms| + 1
      && r.value.monto == monto && r.value.fecha == fecha
      && r.value.concepto == ConceptOrDefault(concepto, k)
      && r.value.concepto != [] && IsStripped(r.value.concepto)
      && r.value.referencia == OrNone(referencia)
      && r.value.observacion == OrNone(observacion)
  {
    if monto <= 0.0 then Err(NonPositiveAmount)
    else if EstaCerrado(closures, Day(fecha)) then Err(DayClosed(Day(fecha)))
    else Ok(Movement(|ms| + 1, k, ConceptOrDefault(concepto, k), monto, OrNone(referencia), OrNone(observacion), fecha))
  }

  /** A caller that passes a stored tipo name (as `crear_entrada` passes "EGRESO") gets the gateway of that kind. */
  lemma StageKindName(ms: seq<Movement>, closures: map<int, Closure>, k: Kind, concepto: string, monto: real,
                      referencia: string, observacion: string, fecha: int)
    ensures StageMovement(ms, closures, KindName(k), concepto, monto, referencia, observacion, fecha)
         == StageKind(ms, closures, k, concepto, monto, referencia, observacion, fecha)
  {
    NormalizeKindName(k);
  }

  /**
   * What every state of the ledger satisfies: ids 1, 2, 3, ..., positive
   * amounts, closures keyed by their day, and each closure's totals still
   * equal to its day's totals (nothing can be written into a closed day).
   */
  ghost predicate LedgerInvariant(ms: seq<Movement>, closures: map<int, Closure>)
  {
    && SequentialIds(ms)
    && (forall i :: 0 <= i < |ms| ==> ms[i].monto > 0.0)
    && (forall d :: d in closures ==>
          && closures[d].fecha == d
          && closures[d].totalIngresos == ResumenDelDia(ms, d).ingresos
          && closures[d].totalEgresos == ResumenDelDia(ms, d).egresos)
  }

  /** A movement outside day d leaves day d's totals as they were. */
  lemma AppendOutsideDay(ms: seq<Movement>, m: Movement, d: int)
    requires Day(m.fecha) != d
    ensures ResumenDelDia(ms + [m], d).ingresos == ResumenDelDia(ms, d).ingresos
    ensures ResumenDelDia(ms + [m], d).egresos == ResumenDelDia(ms, d).egresos
  {
    assert (ms + [m])[..|ms|] == ms;
    InDay(m.fecha, d);
  }

  /** Appending the next movement, positive and outside every closed day, keeps the ledger invariant. */
  lemma AppendKeepsInvariant(ms: seq<Movement>, closures: map<int, Closure>, m: Movement)
    requires LedgerInvariant(ms, closures)
    requires m.id == |ms| + 1 && m.monto > 0.0 && !EstaCerrado(closures, Day(m.fecha))
    ensures LedgerInvariant(ms + [m], closures)
  {
    var ms' := ms + [m];
    forall d | d in closures
      ensures closures[d].totalIngresos == ResumenDelDia(ms', d).ingresos
      ensures closures[d].totalEgresos == ResumenDelDia(ms', d).egresos
    {
      AppendOutsideDay(ms, m, d);
    }
    assert forall i :: 0 <= i < |ms| ==> ms'[i] == ms[i];
  }

  /** Every movement the gateway accepts keeps the ledger invariant when appended. */
  lemma StagedKeepsInvariant(ms: seq<Movement>, closures: map<int, Closure>, tipo: string, concepto: string, monto: real,
                             referencia: string, observacion: string, fecha: int)
    requires LedgerInvariant(ms, closures)
    requires StageMovement(ms, closures, tipo, concepto, monto, referencia, observacion, fecha).Ok?
    ensures LedgerInvariant(ms + [StageMovement(ms, closures, tipo, concepto, monto, referencia, observacion, fecha).value], closures)
  {
    AppendKeepsInvariant(ms, closures, StageMovement(ms, closures, tipo, concepto, monto, referencia, observacion, fecha).value);
  }

  /**
   * `registrar_movimiento_en_db`: stages the movement in the caller's unit
   * of work `db` and does not commit, so it is kept or discarded with the
   * caller's transaction.
   */
  method RegistrarMovimientoEnDb(db: Database, tipo: string, concepto: string, monto: real,
                                 referencia: string, observacion: string, fecha: Option<int>, now: int)
    returns (r: Result<Movement>)
    modifies db`movements
    ensures r == StageMovement(old(db.movements), db.closures, tipo, concepto, monto, referencia, observacion, OrNow(fecha, now))
    ensures r.Ok? ==> db.movements == old(db.movements) + [r.value]
    ensures r.Err? ==> db.movements == old(db.movements)
  {
    var at := OrNow(fecha, now);
    r := StageMovement(db.movements, db.closures, tipo, concepto, monto, referencia, observacion, at);
    if r.Ok? {
      db.movements := db.movements + [r.value];
    }
  }

  /**
   * `registrar_movimiento`: the same checks and row in a unit of work of its
   * own, committed at once; the closed-day check and the insert are one step.
   */
  method RegistrarMovimiento(db: Database, tipo: string, concepto: string, monto: real,
                             referencia: string, observacion: string, fecha: Option<int>, now: int)
    returns (r: Result<Movement>)
    modifies db
    ensures r == StageMovement(old(db.movements), old(db.closures), tipo, concepto, monto, referencia, observacion, OrNow(fecha, now))
    ensures r.Ok? ==> db.movements == old(db.movements) + [r.value]
    ensures r.Err? ==> db.movements == old(db.movements)
    ensures db.State() == old(db.State()).(movements := db.movements)
  {
    var work := new Database.Begin(db);
    r := RegistrarMovimientoEnDb(work, tipo, concepto, monto, referencia, observacion, fecha, now);
    if r.Ok? {
      db.Commit(work);
    }
  }

  /** The closure row `cerrar_dia` stores: the day's summary, frozen. */
  function Snapshot(ms: seq<Movement>, d: int, cerradoPor: string): (c: Closure)
    ensures c.fecha == d
    ensures c.saldoFinal == c.saldoInicial + c.totalIngresos - c.totalEgresos
  {
    var s := ResumenDelDia(ms, d);
    Closure(d, s.ingresos, s.egresos, s.saldoInicial, s.saldoFinal, OrNone(cerradoPor))
  }

  /**
   * `cerrar_dia(d, cerrado_por)`: refuses an already closed day (so a second
   * call always fails); otherwise stores the day's summary as its closure.
   */
  method CerrarDia(db: Database, d: int, cerradoPor: string) returns (r: Result<Closure>)
    modifies db`closures
    ensures old(EstaCerrado(db.closures, d)) ==> r == Err(AlreadyClosed(d)) && db.closures == old(db.closures)
    ensures !old(EstaCerrado(db.closures, d)) ==>
      && r == Ok(Snapshot(db.movements, d, cerradoPor))
      && db.closures == old(db.closures)[d := r.value]
    ensures r.Ok? ==>
      && r.value.totalIngresos == ResumenDelDia(db.movements, d).ingresos
      && r.value.totalEgresos == ResumenDelDia(db.movements, d).egresos
      && r.value.saldoInicial == ResumenDelDia(db.movements, d).saldoInicial
      && r.value.saldoFinal == ResumenDelDia(db.movements, d).saldoFinal
      && EstaCerrado(db.closures, d)
  {
    if EstaCerrado(db.closures, d) {
      return Err(AlreadyClosed(d));
    }
    var c := Snapshot(db.movements, d, cerradoPor);
    db.closures := db.closures[d := c];
    r := Ok(c);
  }

  /** Once a day is closed, every write dated in it is refused, whatever its tipo and monto. */
  lemma ClosedDayRefusesWrites(ms: seq<Movement>, closures: map<int, Closure>, d: int, cerradoPor: string, tipo: string,
                               concepto: string, monto: real, referencia: string, observacion: string, fecha: int)
    requires Day(fecha) == d
    ensures var r := StageMovement(ms, closures[d := Snapshot(ms, d, cerradoPor)], tipo, concepto, monto, referencia, observacion, fecha);
      r.Err? && r.error in {InvalidKind, NonPositiveAmount, DayClosed(d)}
  {
  }

  /**
   * Closing a day keeps the ledger invariant: the stored snapshot holds the
   * day's own totals, and the other closures are untouched.
   */
  lemma CloseKeepsInvariant(ms: seq<Movement>, closures: map<int, Closure>, d: int, cerradoPor: string)
    requires LedgerInvariant(ms, closures)
    ensures LedgerInvariant(ms, closures[d := Snapshot(ms, d, cerradoPor)])
  {
  }
}
