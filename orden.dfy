/**
 * `ordenarNotas`: a stable sort of a copy of the notes under the comparator
 * priority descending, then date ascending, then text ascending.
 */
module Orden {
  import opened Fechas
  import opened Notas

  /** Code-point lexicographic order on texts: negative, zero or positive. */
  function CompararTexto(s: string, t: string): (r: int)
    ensures -1 <= r <= 1
  {
    if s == [] && t == [] then 0
    else if s == [] then -1
    else if t == [] then 1
    else if s[0] < t[0] then -1
    else if s[0] > t[0] then 1
    else CompararTexto(s[1..], t[1..])
  }

  /** `s` is a proper prefix of `t`. */
  predicate PrefijoPropio(s: string, t: string) {
    |s| < |t| && s == t[..|s|]
  }

  /** `s` and `t` agree before position `k` and `s` has the smaller character there. */
  predicate MenorEn(s: string, t: string, k: int) {
    0 <= k < |s| && k < |t| && s[..k] == t[..k] && s[k] < t[k]
  }

  /** The text order is code-point lexicographic order: a proper prefix, or a smaller first difference. */
  lemma {:induction false} CompararTextoLexicografico(s: string, t: string)
    ensures CompararTexto(s, t) < 0 <==> PrefijoPropio(s, t) || exists k :: MenorEn(s, t, k)
  {
    if s == [] || t == [] {
      if s == [] && t != [] {
        assert PrefijoPropio(s, t);
      }
    } else if s[0] < t[0] {
      assert MenorEn(s, t, 0);
    } else if s[0] > t[0] {
      assert !PrefijoPropio(s, t);
      assert !exists k :: MenorEn(s, t, k);
    } else {
      var s', t' := s[1..], t[1..];
      CompararTextoLexicografico(s', t');
      assert PrefijoPropio(s, t) <==> PrefijoPropio(s', t') by {
        if PrefijoPropio(s', t') {
          assert s == [s[0]] + s' && t[..|s|] == [t[0]] + t'[..|s'|];
        }
        if PrefijoPropio(s, t) {
          assert t'[..|s'|] == t[..|s|][1..];
        }
      }
      forall k | MenorEn(s', t', k) ensures MenorEn(s, t, k + 1) {
        assert s[..k + 1] == [s[0]] + s'[..k] && t[..k + 1] == [t[0]] + t'[..k];
      }
      forall k | MenorEn(s, t, k) ensures k > 0 && MenorEn(s', t', k - 1) {
        assert k > 0;
        assert s'[..k - 1] == s[..k][1..] && t'[..k - 1] == t[..k][1..];
      }
    }
  }

  lemma {:induction false} CompararTextoAntisimetrico(s: string, t: string)
    ensures CompararTexto(s, t) == -CompararTexto(t, s)
    ensures CompararTexto(s, t) == 0 <==> s == t
  {
    if s != [] && t != [] && s[0] == t[0] {
      CompararTextoAntisimetrico(s[1..], t[1..]);
      if s[1..] == t[1..] {
        assert s == [s[0]] + s[1..] && t == [t[0]] + t[1..];
      }
    }
  }

  lemma {:induction false} CompararTextoTransitivo(s: string, t: string, u: string)
    requires CompararTexto(s, t) <= 0 && CompararTexto(t, u) <= 0
    ensures CompararTexto(s, u) <= 0
  {
    if s != [] && t != [] && u != [] && s[0] == t[0] == u[0] {
      CompararTextoTransitivo(s[1..], t[1..], u[1..]);
    }
  }

  /**
   * The comparator passed to `sort`: `b.prioridad - a.prioridad`, else the
   * difference of the dates, else the text order. Negative puts `a` first.
   */
  function Comparar(a: Nota, b: Nota): int {
    var dp := b.prioridad - a.prioridad;
    var df := DiaNumero(a.fecha) - DiaNumero(b.fecha);
    if dp != 0 then dp else if df != 0 then df else CompararTexto(a.texto, b.texto)
  }

  /**
   * What the comparator decides: priority descending, then the date ascending,
   * then the text; it is zero exactly when all three keys agree.
   */
  lemma CompararClaves(a: Nota, b: Nota)
    ensures a.prioridad != b.prioridad ==> (Comparar(a, b) < 0 <==> a.prioridad > b.prioridad)
    ensures a.prioridad == b.prioridad && DiaNumero(a.fecha) != DiaNumero(b.fecha) ==>
      (Comparar(a, b) < 0 <==> DiaNumero(a.fecha) < DiaNumero(b.fecha))
    ensures a.prioridad == b.prioridad && DiaNumero(a.fecha) == DiaNumero(b.fecha) ==>
      Comparar(a, b) == CompararTexto(a.texto, b.texto)
    ensures Comparar(a, b) == 0 <==>
      a.prioridad == b.prioridad && DiaNumero(a.fecha) == DiaNumero(b.fecha) && a.texto == b.texto
  {
    CompararTextoAntisimetrico(a.texto, b.texto);
  }

  /** Swapping the arguments negates the comparison, so any two notes compare one way or the other. */
  lemma CompararAntisimetrico(a: Nota, b: Nota)
    ensures Comparar(a, b) == -Comparar(b, a)
  {
    CompararTextoAntisimetrico(a.texto, b.texto);
  }

  lemma CompararTransitivo(a: Nota, b: Nota, c: Nota)
    requires Comparar(a, b) <= 0 && Comparar(b, c) <= 0
    ensures Comparar(a, c) <= 0
  {
    if a.prioridad == b.prioridad == c.prioridad
       && DiaNumero(a.fecha) == DiaNumero(b.fecha) == DiaNumero(c.fecha) {
      CompararTextoTransitivo(a.texto, b.texto, c.texto);
    }
  }

  /** Two notes tie when the comparator returns zero; ties form classes. */
  lemma EmpateTransitivo(a: Nota, b: Nota, c: Nota)
    requires Comparar(a, c) == 0 && Comparar(b, c) == 0
    ensures Comparar(a, b) == 0
  {
    CompararAntisimetrico(b, c);
    CompararAntisimetrico(a, c);
    CompararTransitivo(a, c, b);
    CompararTransitivo(b, c, a);
    CompararAntisimetrico(b, a);
  }

  /** Every note compares no greater than every later one. */
  predicate Ordenada(s: seq<Nota>) {
    forall i, j :: 0 <= i < j < |s| ==> Comparar(s[i], s[j]) <= 0
  }

  /** Places `x` before the first note it does not come after. */
  function Insertar(x: Nota, s: seq<Nota>): (r: seq<Nota>)
    ensures multiset(r) == multiset(s) + multiset{x}
  {
    if s == [] then [x]
    else if Comparar(x, s[0]) <= 0 then [x] + s
    else
      assert s == [s[0]] + s[1..];
      [s[0]] + Insertar(x, s[1..])
  }

  /** `[...notas].sort(Comparar)`: a new sequence; the input is a value and is not changed. */
  function OrdenarNotas(s: seq<Nota>): (r: seq<Nota>)
    ensures multiset(r) == multiset(s)
    ensures Ordenada(r)
  {
    if s == [] then []
    else
      assert s == [s[0]] + s[1..];
      InsertarOrdena(s[0], OrdenarNotas(s[1..]));
      Insertar(s[0], OrdenarNotas(s[1..]))
  }

  lemma {:induction false} InsertarOrdena(x: Nota, s: seq<Nota>)
    requires Ordenada(s)
    ensures Ordenada(Insertar(x, s))
  {
    if s == [] {
    } else if Comparar(x, s[0]) <= 0 {
      var r := Insertar(x, s);
      forall i, j | 0 <= i < j < |r| ensures Comparar(r[i], r[j]) <= 0 {
        if i == 0 && j > 1 {
          CompararTransitivo(x, s[0], s[j - 1]);
        }
      }
    } else {
      var t := Insertar(x, s[1..]);
      InsertarOrdena(x, s[1..]);
      CompararAntisimetrico(x, s[0]);
      var r := Insertar(x, s);
      assert r == [s[0]] + t;
      forall j | 0 < j < |r| ensures Comparar(s[0], r[j]) <= 0 {
        assert r[j] == t[j - 1];
        assert r[j] in multiset(t);
        if r[j] != x {
          assert r[j] in multiset(s[1..]);
          var k :| 0 <= k < |s[1..]| && s[1..][k] == r[j];
          assert Comparar(s[0], s[k + 1]) <= 0;
        }
      }
    }
  }

  /** A sequence that is already in order is returned unchanged. */
  lemma {:induction false} OrdenarFijaOrdenadas(s: seq<Nota>)
    requires Ordenada(s)
    ensures OrdenarNotas(s) == s
  {
    if s != [] {
      OrdenarFijaOrdenadas(s[1..]);
      assert s == [s[0]] + s[1..];
    }
  }

  /** Sorting twice gives the same result as sorting once. */
  lemma OrdenarIdempotente(s: seq<Nota>)
    ensures OrdenarNotas(OrdenarNotas(s)) == OrdenarNotas(s)
  {
    OrdenarFijaOrdenadas(OrdenarNotas(s));
  }

  /** The notes of `s` that tie with `k`, in their order in `s`. */
  function Empates(s: seq<Nota>, k: Nota): (r: seq<Nota>)
    ensures |r| <= |s|
  {
    if s == [] then []
    else (if Comparar(s[0], k) == 0 then [s[0]] else []) + Empates(s[1..], k)
  }

  lemma {:induction false} EmpatesInsertar(x: Nota, s: seq<Nota>, k: Nota)
    ensures Empates(Insertar(x, s), k) == (if Comparar(x, k) == 0 then [x] else []) + Empates(s, k)
  {
    if s != [] && Comparar(x, s[0]) > 0 {
      EmpatesInsertar(x, s[1..], k);
      var r := Insertar(x, s);
      assert r[1..] == Insertar(x, s[1..]);
      if Comparar(s[0], k) == 0 && Comparar(x, k) == 0 {
        EmpateTransitivo(x, s[0], k);
        assert false;
      }
    } else if s != [] {
      assert ([x] + s)[1..] == s;
    }
  }

  /** The sort is stable: notes that tie keep their relative input order. */
  lemma {:induction false} OrdenarEstable(s: seq<Nota>, k: Nota)
    ensures Empates(OrdenarNotas(s), k) == Empates(s, k)
  {
    if s != [] {
      OrdenarEstable(s[1..], k);
      EmpatesInsertar(s[0], OrdenarNotas(s[1..]), k);
    }
  }

  /**
   * What the order means, for notes with real dates: priority never rises;
   * between equal priorities the date never goes back; between equal
   * priorities and dates the text never goes back.
   */
  lemma OrdenadaSignifica(s: seq<Nota>)
    requires Ordenada(s)
    requires forall k :: 0 <= k < |s| ==> FechaValida(s[k].fecha)
    ensures forall i, j :: 0 <= i < j < |s| ==> s[i].prioridad >= s[j].prioridad
    ensures forall i, j :: 0 <= i < j < |s| && s[i].prioridad == s[j].prioridad ==>
      !FechaAntes(s[j].fecha, s[i].fecha)
    ensures forall i, j :: 0 <= i < j < |s| && s[i].prioridad == s[j].prioridad && s[i].fecha == s[j].fecha ==>
      CompararTexto(s[i].texto, s[j].texto) <= 0
  {
    forall i, j | 0 <= i < j < |s| && s[i].prioridad == s[j].prioridad
      ensures !FechaAntes(s[j].fecha, s[i].fecha)
    {
      DiaNumeroMonotono(s[j].fecha, s[i].fecha);
    }
  }
}
