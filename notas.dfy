/** The note record and its construction from the form's raw input (`crearNota`). */
module Notas {
  import opened Opciones
  import opened Fechas
  import opened Cadenas

  /** A note on the board. `fecha` is kept as a date; its stored text is `IsoFecha(fecha)`. */
  datatype Nota = Nota(id: string, texto: string, fecha: Fecha, prioridad: int, completada: bool)

  /** The only error `crearNota` raises. */
  const DatosInvalidos := "Datos de nota inválidos"

  function Max(a: int, b: int): int { if a >= b then a else b }
  function Min(a: int, b: int): int { if a <= b then a else b }

  /**
   * `Math.max(1, Math.min(3, Number(prioridad) || 1))`, where `p` is the value
   * of `Number(prioridad)` and `None` stands for NaN.
   */
  function NormalizarPrioridad(p: Option<int>): (r: int)
    ensures 1 <= r <= 3
    ensures p.None? || p.value <= 1 ==> r == 1
    ensures p.Some? && 1 <= p.value <= 3 ==> r == p.value
    ensures p.Some? && p.value >= 3 ==> r == 3
  {
    var n := if p.None? || p.value == 0 then 1 else p.value;
    Max(1, Min(3, n))
  }

  /**
   * `crearNota(texto, fecha, prioridad)` with the fresh id passed in: the
   * trimmed text, the date read from its `YYYY-MM-DD` form, the normalised
   * priority; an error when the trimmed text is empty or the date is invalid.
   */
  function CrearNota(texto: string, fecha: string, prioridad: Option<int>, id: string): (r: Result<Nota, string>)
    ensures r.Err? <==> TodoEspacios(texto) || ParseIso(fecha).None?
    ensures r.Err? ==> r.error == DatosInvalidos
    ensures r.Ok? ==> r.value.id == id && r.value.texto == Trim(texto) && !r.value.completada
    ensures r.Ok? ==> r.value.texto != [] && !EsEspacio(r.value.texto[0])
                      && !EsEspacio(r.value.texto[|r.value.texto| - 1])
    ensures r.Ok? ==> FechaValida(r.value.fecha) && IsoFecha(r.value.fecha) == fecha
    ensures r.Ok? ==> r.value.prioridad == NormalizarPrioridad(prioridad)
  {
    TrimVacio(texto);
    TrimSinBordes(texto);
    var t := Trim(texto);
    var p := NormalizarPrioridad(prioridad);
    var f := ParseIso(fecha);
    if t == [] || f.None? then Err(DatosInvalidos)
    else
      IsoDeParseIso(fecha);
      Ok(Nota(id, t, f.value, p, false))
  }

  /** Every note `CrearNota` builds is well formed. */
  predicate NotaValida(n: Nota) {
    n.texto != [] && Trim(n.texto) == n.texto && FechaValida(n.fecha) && 1 <= n.prioridad <= 3
  }

  lemma CrearNotaValida(texto: string, fecha: string, prioridad: Option<int>, id: string)
    ensures CrearNota(texto, fecha, prioridad, id).Ok? ==> NotaValida(CrearNota(texto, fecha, prioridad, id).value)
  {
    TrimIdempotente(texto);
  }

  /** Blank text is rejected, whatever the date and priority. */
  lemma CrearNotaRechazaTexto(fecha: string, prioridad: Option<int>, id: string)
    ensures CrearNota("", fecha, prioridad, id).Err?
    ensures CrearNota("   \t", fecha, prioridad, id).Err?
  {
    assert TodoEspacios("   \t");
  }

  /** A date that does not read, or that does not exist, is rejected. */
  lemma CrearNotaRechazaFecha(prioridad: Option<int>, id: string)
    ensures CrearNota("Comprar leche", "not-a-date", prioridad, id).Err?
    ensures CrearNota("Comprar leche", "2024-02-30", prioridad, id).Err?
  {
    FebreroTreintaNoSeLee();
    assert "not-a-date"[4] == 'a';
  }

  lemma FebreroTreintaNoSeLee()
    ensures ParseIso("2024-02-30").None?
  {
    var s := "2024-02-30";
    assert s[..4] == "2024" && s[5..7] == "02" && s[8..] == "30";
    assert ValorDigitos("02") == 2 by { assert "02"[..1] == "0"; }
    assert ValorDigitos("30") == 30 by { assert "30"[..1] == "3"; }
  }

  lemma {:induction false} LeerFechaEjemplo()
    ensures ParseIso("2024-06-01") == Some(Fecha(2024, 6, 1))
  {
    var f := Fecha(2024, 6, 1);
    assert IsoFecha(f) == "2024-06-01" by {
      assert Digitos(2024, 4) == "2024";
      assert Digitos(6, 2) == "06";
      assert Digitos(1, 2) == "01";
    }
    ParseIsoDeIso(f);
  }

  lemma {:induction false} TrimEjemplo()
    ensures Trim("  Comprar leche ") == "Comprar leche"
  {
    var s := "  Comprar leche ";
    assert QuitarInicio(s) == "Comprar leche " by {
      assert s[1..] == " Comprar leche ";
      assert s[1..][1..] == "Comprar leche ";
    }
    var u := "Comprar leche ";
    assert u[..|u| - 1] == "Comprar leche";
  }

  /** A note made from valid input: text trimmed, date kept, priority clamped from above. */
  lemma CrearNotaEjemplo()
    ensures CrearNota("  Comprar leche ", "2024-06-01", Some(7), "n1")
            == Ok(Nota("n1", "Comprar leche", Fecha(2024, 6, 1), 3, false))
  {
    TrimEjemplo();
    LeerFechaEjemplo();
  }
}
