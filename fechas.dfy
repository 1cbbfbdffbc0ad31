/**
 * Calendar dates as the note board stores them: a proleptic Gregorian
 * (year, month, day) triple, its `YYYY-MM-DD` text form (what
 * `toISOString().slice(0,10)` yields) and a day number, which orders dates
 * the way the millisecond values of JavaScript `Date`s at UTC midnight do.
 */
module Fechas {
  import opened Opciones

  datatype Fecha = Fecha(anio: int, mes: int, dia: int)

  predicate EsBisiesto(y: int) {
    y % 4 == 0 && (y % 100 != 0 || y % 400 == 0)
  }

  function DiasDelMes(y: int, m: int): (r: int)
    ensures 28 <= r <= 31
  {
    if m == 2 then (if EsBisiesto(y) then 29 else 28)
    else if m == 4 || m == 6 || m == 9 || m == 11 then 30
    else 31
  }

  function DiasDelAnio(y: int): int {
    if EsBisiesto(y) then 366 else 365
  }

  /** A real calendar date whose year has four digits. */
  predicate FechaValida(f: Fecha) {
    0 <= f.anio <= 9999 && 1 <= f.mes <= 12 && 1 <= f.dia <= DiasDelMes(f.anio, f.mes)
  }

  /** Lexicographic order on (year, month, day): the calendar order. */
  predicate FechaAntes(a: Fecha, b: Fecha) {
    a.anio < b.anio
    || (a.anio == b.anio && a.mes < b.mes)
    || (a.anio == b.anio && a.mes == b.mes && a.dia < b.dia)
  }

  /** Days in the years 0 .. y-1. */
  function DiasAntesDelAnio(y: nat): nat {
    if y == 0 then 0 else DiasAntesDelAnio(y - 1) + DiasDelAnio(y - 1)
  }

  /** Days in the months 1 .. m-1 of year y. */
  function DiasAntesDelMes(y: int, m: int): nat
    requires 1 <= m <= 13
  {
    if m == 1 then 0 else DiasAntesDelMes(y, m - 1) + DiasDelMes(y, m - 1)
  }

  /** Days elapsed since 0000-01-01. */
  function DiaNumero(f: Fecha): int {
    if 0 <= f.anio && 1 <= f.mes <= 12 then
      DiasAntesDelAnio(f.anio) + DiasAntesDelMes(f.anio, f.mes) + f.dia - 1
    else
      f.dia
  }

  /** The calendar day after `f`. */
  function Siguiente(f: Fecha): Fecha {
    if f.dia < DiasDelMes(f.anio, f.mes) then Fecha(f.anio, f.mes, f.dia + 1)
    else if f.mes < 12 then Fecha(f.anio, f.mes + 1, 1)
    else Fecha(f.anio + 1, 1, 1)
  }

  /** Day numbers count days: 0000-01-01 is day 0, and each next day is one more. */
  lemma DiaNumeroSiguiente(f: Fecha)
    requires FechaValida(f)
    ensures DiaNumero(Fecha(0, 1, 1)) == 0
    ensures f.anio < 9999 || f.mes < 12 || f.dia < 31 ==> FechaValida(Siguiente(f))
    ensures DiaNumero(Siguiente(f)) == DiaNumero(f) + 1
  {
    if f.dia < DiasDelMes(f.anio, f.mes) {
      assert Siguiente(f) == Fecha(f.anio, f.mes, f.dia + 1);
    } else if f.mes < 12 {
      assert Siguiente(f) == Fecha(f.anio, f.mes + 1, 1);
      assert DiasAntesDelMes(f.anio, f.mes + 1) == DiasAntesDelMes(f.anio, f.mes) + DiasDelMes(f.anio, f.mes);
    } else {
      assert Siguiente(f) == Fecha(f.anio + 1, 1, 1);
      MesesLlenanElAnio(f.anio);
      assert DiasAntesDelAnio(f.anio + 1) == DiasAntesDelAnio(f.anio) + DiasDelAnio(f.anio);
    }
  }

  lemma {:induction false} AnioCreciente(y: nat, z: nat)
    requires y <= z
    ensures DiasAntesDelAnio(y) + (z - y) * 365 <= DiasAntesDelAnio(z)
    decreases z - y
  {
    if y < z {
      AnioCreciente(y + 1, z);
    }
  }

  /** The twelve months fill the year exactly. */
  lemma MesesLlenanElAnio(y: int)
    ensures DiasAntesDelMes(y, 13) == DiasDelAnio(y)
  {
    assert DiasAntesDelMes(y, 2) == 31;
    assert DiasAntesDelMes(y, 3) == 31 + DiasDelMes(y, 2);
    assert DiasAntesDelMes(y, 4) == 62 + DiasDelMes(y, 2);
    assert DiasAntesDelMes(y, 5) == 92 + DiasDelMes(y, 2);
    assert DiasAntesDelMes(y, 6) == 123 + DiasDelMes(y, 2);
    assert DiasAntesDelMes(y, 7) == 153 + DiasDelMes(y, 2);
    assert DiasAntesDelMes(y, 8) == 184 + DiasDelMes(y, 2);
    assert DiasAntesDelMes(y, 9) == 215 + DiasDelMes(y, 2);
    assert DiasAntesDelMes(y, 10) == 245 + DiasDelMes(y, 2);
    assert DiasAntesDelMes(y, 11) == 276 + DiasDelMes(y, 2);
    assert DiasAntesDelMes(y, 12) == 306 + DiasDelMes(y, 2);
  }

  lemma {:induction false} MesCreciente(y: int, m: int, n: int)
    requires 1 <= m < n <= 13
    ensures DiasAntesDelMes(y, m) + DiasDelMes(y, m) <= DiasAntesDelMes(y, n)
    decreases n - m
  {
    if m + 1 < n {
      MesCreciente(y, m + 1, n);
    }
  }

  /** The day of the year of a valid date lies inside its year. */
  lemma DentroDelAnio(f: Fecha)
    requires FechaValida(f)
    ensures DiasAntesDelMes(f.anio, f.mes) + f.dia - 1 < DiasDelAnio(f.anio)
  {
    MesCreciente(f.anio, f.mes, 13);
    MesesLlenanElAnio(f.anio);
  }

  /** Day numbers follow calendar order: comparing them compares the dates. */
  lemma DiaNumeroMonotono(a: Fecha, b: Fecha)
    requires FechaValida(a) && FechaValida(b)
    ensures FechaAntes(a, b) ==> DiaNumero(a) < DiaNumero(b)
    ensures a == b <==> DiaNumero(a) == DiaNumero(b)
  {
    if FechaAntes(a, b) {
      Estricto(a, b);
    } else if FechaAntes(b, a) {
      Estricto(b, a);
    }
  }

  lemma Estricto(a: Fecha, b: Fecha)
    requires FechaValida(a) && FechaValida(b) && FechaAntes(a, b)
    ensures DiaNumero(a) < DiaNumero(b)
  {
    if a.anio < b.anio {
      DentroDelAnio(a);
      AnioCreciente(a.anio + 1, b.anio);
    } else if a.mes < b.mes {
      MesCreciente(a.anio, a.mes, b.mes);
    }
  }

  // ---- text form ----

  predicate EsDigito(c: char) {
    '0' <= c <= '9'
  }

  predicate SonDigitos(s: string) {
    forall i :: 0 <= i < |s| ==> EsDigito(s[i])
  }

  function Potencia10(w: nat): (r: nat)
    ensures r >= 1
  {
    if w == 0 then 1 else 10 * Potencia10(w - 1)
  }

  /** Value of a string of decimal digits. */
  function ValorDigitos(s: string): nat
    requires SonDigitos(s)
  {
    if s == [] then 0
    else 10 * ValorDigitos(s[..|s| - 1]) + ((s[|s| - 1] as int) - ('0' as int))
  }

  /** `n` written with exactly `w` decimal digits, zero padded (the low `w` digits of `n`). */
  function Digitos(n: nat, w: nat): (r: string)
    ensures |r| == w && SonDigitos(r)
  {
    if w == 0 then [] else Digitos(n / 10, w - 1) + [(('0' as int) + n % 10) as char]
  }

  lemma {:induction false} ValorDeDigitos(n: nat, w: nat)
    requires n < Potencia10(w)
    ensures ValorDigitos(Digitos(n, w)) == n
  {
    if w > 0 {
      var s := Digitos(n, w);
      assert s[..|s| - 1] == Digitos(n / 10, w - 1);
      ValorDeDigitos(n / 10, w - 1);
    }
  }

  lemma {:induction false} DigitosDeValor(s: string)
    requires SonDigitos(s)
    ensures ValorDigitos(s) < Potencia10(|s|)
    ensures Digitos(ValorDigitos(s), |s|) == s
  {
    if s != [] {
      var p := s[..|s| - 1];
      assert SonDigitos(p);
      DigitosDeValor(p);
      var v := ValorDigitos(s);
      var d := (s[|s| - 1] as int) - ('0' as int);
      assert v / 10 == ValorDigitos(p) && v % 10 == d;
      assert s == p + [s[|s| - 1]];
    }
  }

  /** The `YYYY-MM-DD` form of a date. */
  function IsoFecha(f: Fecha): (r: string)
    ensures |r| == 10 && r[4] == '-' && r[7] == '-'
  {
    Digitos(if f.anio < 0 then 0 else f.anio, 4) + "-"
    + Digitos(if f.mes < 0 then 0 else f.mes, 2) + "-"
    + Digitos(if f.dia < 0 then 0 else f.dia, 2)
  }

  /** Reads a `YYYY-MM-DD` string; `None` for any other shape and for dates that do not exist. */
  function ParseIso(s: string): (r: Option<Fecha>)
    ensures r.Some? ==> FechaValida(r.value)
  {
    if |s| == 10 && s[4] == '-' && s[7] == '-'
       && SonDigitos(s[..4]) && SonDigitos(s[5..7]) && SonDigitos(s[8..])
    then
      var f := Fecha(ValorDigitos(s[..4]), ValorDigitos(s[5..7]), ValorDigitos(s[8..]));
      if FechaValida(f) then Some(f) else None
    else None
  }

  /** Formatting a valid date and reading it back gives the date. */
  lemma {:induction false} ParseIsoDeIso(f: Fecha)
    requires FechaValida(f)
    ensures ParseIso(IsoFecha(f)) == Some(f)
  {
    var s := IsoFecha(f);
    assert s[..4] == Digitos(f.anio, 4);
    assert s[5..7] == Digitos(f.mes, 2);
    assert s[8..] == Digitos(f.dia, 2);
    ValorDeDigitos(f.anio, 4);
    ValorDeDigitos(f.mes, 2);
    ValorDeDigitos(f.dia, 2);
  }

  /** A string that reads as a date is exactly the text form of that date. */
  lemma {:induction false} IsoDeParseIso(s: string)
    requires ParseIso(s).Some?
    ensures IsoFecha(ParseIso(s).value) == s
  {
    DigitosDeValor(s[..4]);
    DigitosDeValor(s[5..7]);
    DigitosDeValor(s[8..]);
    assert s == s[..4] + "-" + s[5..7] + "-" + s[8..];
  }

  /** Two valid dates have the same text form only when they are equal. */
  lemma IsoInyectiva(a: Fecha, b: Fecha)
    requires FechaValida(a) && FechaValida(b)
    ensures IsoFecha(a) == IsoFecha(b) <==> a == b
  {
    ParseIsoDeIso(a);
    ParseIsoDeIso(b);
  }
}
