/**
 * Choosing the active filter from the URL fragment (`obtenerFiltroDesdeHash`)
 * and deriving the notes it shows (`filtrarNotas`), with the current date
 * passed in explicitly.
 */
module Filtros {
  import opened Fechas
  import opened Cadenas
  import opened Notas

  const HOY := "#hoy"
  const SEMANA := "#semana"
  const TODAS := "#todas"

  /** `obtenerFiltroDesdeHash`, given the value of `location.hash`. */
  function ObtenerFiltroDesdeHash(hash: string): (r: string)
    ensures r == HOY || r == SEMANA || r == TODAS
    ensures r == HOY <==> Minusculas(hash) == HOY
    ensures r == SEMANA <==> Minusculas(hash) == SEMANA
  {
    var h := Minusculas(if hash == "" then TODAS else hash);
    if h == HOY || h == SEMANA || h == TODAS then h else TODAS
  }

  /** Matching ignores case: the fragment in any mix of cases selects the same filter. */
  lemma FiltroIgnoraMayusculas(hash: string)
    ensures ObtenerFiltroDesdeHash(Minusculas(hash)) == ObtenerFiltroDesdeHash(hash)
  {
    MinusculasIdempotente(hash);
  }

  lemma FiltroEjemplos()
    ensures ObtenerFiltroDesdeHash("#HoY") == HOY
    ensures ObtenerFiltroDesdeHash("#Semana") == SEMANA
    ensures ObtenerFiltroDesdeHash("") == TODAS
    ensures ObtenerFiltroDesdeHash("#bogus") == TODAS
  {
    assert Minusculas("#HoY") == HOY;
    assert Minusculas("#Semana") == SEMANA;
    assert Minusculas("#bogus")[1] == 'b';
  }

  /**
   * Whether a note is shown under `filtro` on the day `hoy`: `#hoy` compares
   * the stored `YYYY-MM-DD` texts, `#semana` keeps the days from `hoy` to
   * `hoy` + 7 inclusive, and every other filter keeps everything.
   */
  predicate EnVentana(n: Nota, filtro: string, hoy: Fecha) {
    if filtro == HOY then IsoFecha(n.fecha) == IsoFecha(hoy)
    else if filtro == SEMANA then DiaNumero(hoy) <= DiaNumero(n.fecha) <= DiaNumero(hoy) + 7
    else true
  }

  /**
   * What the two `filter` tests decide: with real dates, `#hoy` keeps exactly
   * the notes dated today and `#semana` none dated before today; any other
   * filter keeps every note.
   */
  lemma EnVentanaSignifica(n: Nota, filtro: string, hoy: Fecha)
    ensures filtro == HOY && FechaValida(n.fecha) && FechaValida(hoy) ==> (EnVentana(n, filtro, hoy) <==> n.fecha == hoy)
    ensures filtro == SEMANA && FechaValida(n.fecha) && FechaValida(hoy) && EnVentana(n, filtro, hoy) ==>
      !FechaAntes(n.fecha, hoy)
    ensures filtro != HOY && filtro != SEMANA ==> EnVentana(n, filtro, hoy)
  {
    if FechaValida(n.fecha) && FechaValida(hoy) {
      IsoInyectiva(n.fecha, hoy);
      DiaNumeroMonotono(n.fecha, hoy);
    }
  }

  /** `a` is a subsequence of `b`: its elements occur in `b` in the same order. */
  predicate EsSubsecuencia<T(==)>(a: seq<T>, b: seq<T>) {
    if a == [] then true
    else if b == [] then false
    else (a[0] == b[0] && EsSubsecuencia(a[1..], b[1..])) || EsSubsecuencia(a, b[1..])
  }

  /** `notas.filter(n => EnVentana(n, filtro, hoy))`. */
  function Quedarse(notas: seq<Nota>, filtro: string, hoy: Fecha): (r: seq<Nota>)
    ensures EsSubsecuencia(r, notas)
    ensures forall x :: multiset(r)[x] == if EnVentana(x, filtro, hoy) then multiset(notas)[x] else 0
  {
    if notas == [] then []
    else
      var resto := Quedarse(notas[1..], filtro, hoy);
      assert notas == [notas[0]] + notas[1..];
      if EnVentana(notas[0], filtro, hoy) then [notas[0]] + resto else resto
  }

  /** `filtrarNotas`, with `estado.filtro` and today's date as parameters. */
  function FiltrarNotas(notas: seq<Nota>, filtro: string, hoy: Fecha): (r: seq<Nota>)
    ensures EsSubsecuencia(r, notas)
    ensures filtro != HOY && filtro != SEMANA ==> r == notas
    ensures forall x :: multiset(r)[x] == if EnVentana(x, filtro, hoy) then multiset(notas)[x] else 0
  {
    if filtro == HOY || filtro == SEMANA then Quedarse(notas, filtro, hoy)
    else SubsecuenciaReflexiva(notas); notas
  }

  lemma {:induction false} SubsecuenciaReflexiva<T>(s: seq<T>)
    ensures EsSubsecuencia(s, s)
  {
    if s != [] {
      SubsecuenciaReflexiva(s[1..]);
    }
  }

  /** With `#hoy`, exactly the notes dated today are kept (for notes with real dates). */
  lemma FiltrarHoy(notas: seq<Nota>, hoy: Fecha)
    requires FechaValida(hoy)
    requires forall k :: 0 <= k < |notas| ==> FechaValida(notas[k].fecha)
    ensures forall x :: x in FiltrarNotas(notas, HOY, hoy) <==> x in notas && x.fecha == hoy
  {
    forall x | x in notas
      ensures EnVentana(x, HOY, hoy) <==> x.fecha == hoy
    {
      IsoInyectiva(x.fecha, hoy);
    }
    var r := FiltrarNotas(notas, HOY, hoy);
    assert forall x :: x in r <==> multiset(r)[x] > 0;
  }

  /** With `#semana`, exactly the notes dated from today to seven days later are kept. */
  lemma FiltrarSemana(notas: seq<Nota>, hoy: Fecha)
    ensures forall x :: x in FiltrarNotas(notas, SEMANA, hoy) <==>
      x in notas && DiaNumero(hoy) <= DiaNumero(x.fecha) <= DiaNumero(hoy) + 7
  {
    var r := FiltrarNotas(notas, SEMANA, hoy);
    assert forall x :: x in r <==> multiset(r)[x] > 0;
    assert forall x :: x in notas <==> multiset(notas)[x] > 0;
  }

  /** Filtering twice with the same filter is filtering once. */
  lemma {:induction false} FiltrarIdempotente(notas: seq<Nota>, filtro: string, hoy: Fecha)
    ensures FiltrarNotas(FiltrarNotas(notas, filtro, hoy), filtro, hoy) == FiltrarNotas(notas, filtro, hoy)
  {
    if filtro == HOY || filtro == SEMANA {
      QuedarseIdempotente(notas, filtro, hoy);
    }
  }

  lemma {:induction false} QuedarseIdempotente(notas: seq<Nota>, filtro: string, hoy: Fecha)
    ensures Quedarse(Quedarse(notas, filtro, hoy), filtro, hoy) == Quedarse(notas, filtro, hoy)
  {
    if notas != [] {
      QuedarseIdempotente(notas[1..], filtro, hoy);
      var resto := Quedarse(notas[1..], filtro, hoy);
      if EnVentana(notas[0], filtro, hoy) {
        assert ([notas[0]] + resto)[1..] == resto;
      }
    }
  }

  // ---- the week test as app.js:73-74 writes it ----

  const MS_POR_DIA := 86400000

  /**
   * `new Date(n.fecha) >= hoy && new Date(n.fecha) <= fin`, where `hoy` is the
   * current instant, `ms` milliseconds past the UTC midnight that starts the
   * day `dia`, and `fin` is seven days later; a note's date reads as its UTC
   * midnight.
   */
  predicate EnSemanaComoEscrito(n: Nota, dia: Fecha, ms: int) {
    var nota := DiaNumero(n.fecha) * MS_POR_DIA;
    var ahora := DiaNumero(dia) * MS_POR_DIA + ms;
    ahora <= nota <= ahora + 7 * MS_POR_DIA
  }

  /**
   * Past midnight, the written test keeps the seven days after today and
   * drops today itself.
   */
  lemma SemanaComoEscrito(n: Nota, dia: Fecha, ms: int)
    requires 0 < ms < MS_POR_DIA
    ensures EnSemanaComoEscrito(n, dia, ms) <==> DiaNumero(dia) < DiaNumero(n.fecha) <= DiaNumero(dia) + 7
  {
    var d, h := DiaNumero(n.fecha), DiaNumero(dia);
    if d <= h {
      assert d * MS_POR_DIA <= h * MS_POR_DIA;
    } else if d > h + 7 {
      assert d * MS_POR_DIA >= (h + 8) * MS_POR_DIA;
    } else {
      assert (h + 1) * MS_POR_DIA <= d * MS_POR_DIA <= (h + 7) * MS_POR_DIA;
    }
  }

  /** At exactly UTC midnight the written test and the intended window agree. */
  lemma SemanaComoEscritoMedianoche(n: Nota, dia: Fecha)
    ensures EnSemanaComoEscrito(n, dia, 0) <==> EnVentana(n, SEMANA, dia)
  {
    var d, h := DiaNumero(n.fecha), DiaNumero(dia);
    if d < h {
      assert d * MS_POR_DIA < h * MS_POR_DIA;
    } else if d > h + 7 {
      assert d * MS_POR_DIA > (h + 7) * MS_POR_DIA;
    } else {
      assert h * MS_POR_DIA <= d * MS_POR_DIA <= (h + 7) * MS_POR_DIA;
    }
  }

  /** A note dated today: shown by the intended `#semana` test, hidden by the written one. */
  lemma SemanaComoEscritoPierdeHoy(n: Nota, hoy: Fecha, ms: int)
    requires n.fecha == hoy && 0 < ms < MS_POR_DIA
    ensures EnVentana(n, SEMANA, hoy)
    ensures !EnSemanaComoEscrito(n, hoy, ms)
  {
    SemanaComoEscrito(n, hoy, ms);
  }
}
