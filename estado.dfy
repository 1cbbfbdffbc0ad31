/**
 * The board's mutable state (`estado`: the notes and the active filter) and
 * the handlers that change it: form submission, the note buttons
 * (`onAccionNota`), the fragment change, the cross-window `message` handler
 * and the load from storage (`cargarEstado`). The storage record is kept as
 * the parse result a later read of the key would give.
 */
module Estado {
  import opened Opciones
  import opened Fechas
  import opened Notas
  import opened Filtros
  import opened Orden

  const BORRAR := "borrar"
  const COMPLETAR := "completar"
  const SNAPSHOT := "SNAPSHOT"
  const BORRADO := "BORRADO"

  /** `notas.findIndex(n => n.id === id)`: the first index with that id, or -1. */
  function BuscarIndice(notas: seq<Nota>, id: string): (r: int)
    ensures -1 <= r < |notas|
    ensures r >= 0 ==> notas[r].id == id && forall k :: 0 <= k < r ==> notas[k].id != id
    ensures r < 0 <==> forall k :: 0 <= k < |notas| ==> notas[k].id != id
  {
    if notas == [] then -1
    else if notas[0].id == id then 0
    else
      var i := BuscarIndice(notas[1..], id);
      if i < 0 then -1 else i + 1
  }

  /** `notas.splice(i, 1)`: the note at `i` removed, the others in their order. */
  function QuitarEn(notas: seq<Nota>, i: int): (r: seq<Nota>)
    requires 0 <= i < |notas|
    ensures |r| == |notas| - 1
    ensures forall k :: 0 <= k < i ==> r[k] == notas[k]
    ensures forall k :: i <= k < |r| ==> r[k] == notas[k + 1]
  {
    notas[..i] + notas[i + 1..]
  }

  /** `notas[i].completada = true`: that note marked done, every other one kept. */
  function CompletarEn(notas: seq<Nota>, i: int): (r: seq<Nota>)
    requires 0 <= i < |notas|
    ensures |r| == |notas| && r[i] == notas[i].(completada := true)
    ensures forall k :: 0 <= k < |notas| && k != i ==> r[k] == notas[k]
  {
    notas[i := notas[i].(completada := true)]
  }

  /**
   * The notes after `onAccionNota` for the button `acc` of the note `id`,
   * `confirmado` being the answer to the confirmation dialog: only the first
   * note with that id is deleted or completed.
   */
  function AccionNota(notas: seq<Nota>, id: string, acc: string, confirmado: bool): (r: seq<Nota>)
    ensures BuscarIndice(notas, id) < 0 ==> r == notas
    ensures acc != BORRAR && acc != COMPLETAR ==> r == notas
    ensures acc == BORRAR && !confirmado ==> r == notas
    ensures BuscarIndice(notas, id) >= 0 && acc == BORRAR && confirmado ==>
      r == QuitarEn(notas, BuscarIndice(notas, id))
    ensures BuscarIndice(notas, id) >= 0 && acc == COMPLETAR ==>
      r == CompletarEn(notas, BuscarIndice(notas, id))
  {
    var i := BuscarIndice(notas, id);
    assert BORRAR != COMPLETAR by { assert BORRAR[0] != COMPLETAR[0]; }
    if i < 0 then notas
    else if acc == BORRAR && confirmado then QuitarEn(notas, i)
    else if acc == COMPLETAR then CompletarEn(notas, i)
    else notas
  }

  /** Deleting removes one occurrence of the first note with the id and keeps the rest in order. */
  lemma BorrarQuitaUna(notas: seq<Nota>, id: string)
    requires BuscarIndice(notas, id) >= 0
    ensures var r := AccionNota(notas, id, BORRAR, true);
      EsSubsecuencia(r, notas)
      && multiset(r) == multiset(notas) - multiset{notas[BuscarIndice(notas, id)]}
  {
    var i := BuscarIndice(notas, id);
    var r := AccionNota(notas, id, BORRAR, true);
    assert notas == notas[..i] + [notas[i]] + notas[i + 1..];
    SubsecuenciaQuitar(notas, i);
  }

  lemma {:induction false} SubsecuenciaQuitar(s: seq<Nota>, i: int)
    requires 0 <= i < |s|
    ensures EsSubsecuencia(s[..i] + s[i + 1..], s)
  {
    if i == 0 {
      assert s[..0] + s[1..] == s[1..];
      SubsecuenciaReflexiva(s[1..]);
    } else {
      SubsecuenciaQuitar(s[1..], i - 1);
      var t := s[..i] + s[i + 1..];
      assert t[0] == s[0];
      assert t[1..] == s[1..][..i - 1] + s[1..][i..];
    }
  }

  /**
   * Submitting a note appends it to the board (app.js:120-122); deleting it by
   * its id with confirmation then gives back the board as it was, provided no
   * earlier note has that id.
   */
  lemma CrearYBorrar(notas: seq<Nota>, texto: string, fecha: string, p: Option<int>, id: string)
    requires CrearNota(texto, fecha, p, id).Ok?
    requires BuscarIndice(notas, id) < 0
    ensures AccionNota(notas + [CrearNota(texto, fecha, p, id).value], id, BORRAR, true) == notas
  {
    AnadirYBorrar(notas, CrearNota(texto, fecha, p, id).value);
  }

  lemma AnadirYBorrar(notas: seq<Nota>, n: Nota)
    requires BuscarIndice(notas, n.id) < 0
    ensures AccionNota(notas + [n], n.id, BORRAR, true) == notas
  {
    var t := notas + [n];
    assert forall k :: 0 <= k < |notas| ==> t[k] == notas[k] && t[k].id != n.id;
    assert t[|notas|] == n;
    assert t[..|notas|] + t[|notas| + 1..] == notas;
  }

  // ---- cross-window messages ----

  /** A property of the message payload: a string or any other value. */
  datatype Valor = Texto(s: string) | OtroValor

  /** `ev.data`: anything that is not a (non-null) object, or an object with `tipo` and `id`. */
  datatype Dato = NoObjeto | Objeto(tipo: Valor, id: Valor)

  datatype Evento = Evento(origen: string, dato: Dato)

  /** `notas.filter(n => n.id !== id)`. */
  function QuitarPorId(notas: seq<Nota>, id: Valor): (r: seq<Nota>)
    ensures EsSubsecuencia(r, notas)
    ensures forall k :: 0 <= k < |r| ==> Texto(r[k].id) != id
    ensures forall x :: multiset(r)[x] == if Texto(x.id) == id then 0 else multiset(notas)[x]
  {
    if notas == [] then []
    else
      var resto := QuitarPorId(notas[1..], id);
      assert notas == [notas[0]] + notas[1..];
      if Texto(notas[0].id) == id then resto else [notas[0]] + resto
  }

  /**
   * The notes after the `message` handler of the page whose origin is
   * `propio`, with the `BORRADO` branch at the level of the `SNAPSHOT` one.
   */
  function ManejarMensaje(notas: seq<Nota>, propio: string, ev: Evento): (r: seq<Nota>)
    ensures EsSubsecuencia(r, notas)
    ensures ev.origen != propio || ev.dato.NoObjeto? ==> r == notas
    ensures ev.dato.Objeto? && ev.dato.tipo != Texto(BORRADO) ==> r == notas
    ensures ev.origen == propio && ev.dato.Objeto? && ev.dato.tipo == Texto(BORRADO) ==>
      forall x :: multiset(r)[x] == if Texto(x.id) == ev.dato.id then 0 else multiset(notas)[x]
  {
    SubsecuenciaReflexiva(notas);
    if ev.origen != propio then notas
    else match ev.dato
      case NoObjeto => notas
      case Objeto(tipo, id) => if tipo == Texto(BORRADO) then QuitarPorId(notas, id) else notas
  }

  /**
   * The handler as app.js:162-177 nests it, read with the listener's missing
   * closing brace added at its end: the `BORRADO` test sits inside the
   * `SNAPSHOT` one.
   */
  function ManejarMensajeComoEscrito(notas: seq<Nota>, propio: string, ev: Evento): (r: seq<Nota>)
    ensures ev.origen != propio ==> r == notas
    ensures ev.dato.NoObjeto? ==> r == notas
    ensures EsSubsecuencia(r, notas)
  {
    SubsecuenciaReflexiva(notas);
    if ev.origen != propio then notas
    else match ev.dato
      case NoObjeto => notas
      case Objeto(tipo, id) =>
        if tipo == Texto(SNAPSHOT) then
          (if tipo == Texto(BORRADO) then QuitarPorId(notas, id) else notas)
        else notas
  }

  /** As written, no message ever deletes a note. */
  lemma MensajeComoEscritoNuncaBorra(notas: seq<Nota>, propio: string, ev: Evento)
    ensures ManejarMensajeComoEscrito(notas, propio, ev) == notas
  {
  }

  /** A same-origin `BORRADO` for a note on the board: ignored as written, honoured as intended. */
  lemma MensajeBorradoDiscrepa(n: Nota, propio: string)
    ensures var ev := Evento(propio, Objeto(Texto(BORRADO), Texto(n.id)));
      ManejarMensajeComoEscrito([n], propio, ev) == [n] && ManejarMensaje([n], propio, ev) == []
  {
    var ev := Evento(propio, Objeto(Texto(BORRADO), Texto(n.id)));
    assert multiset(ManejarMensaje([n], propio, ev))[n] == 0;
  }

  // ---- storage ----

  /** A field of the parsed record: an array (of notes), a string, or anything else. */
  datatype Campo = Arreglo(lista: seq<Nota>) | Cadena(s: string) | OtroCampo

  /** The value `JSON.parse` returned: `null`, an object with `notas` and `filtro`, or anything else. */
  datatype Json = JsonNulo | JsonObjeto(notas: Campo, filtro: Campo) | JsonOtro

  /** Reading the key: nothing (or an empty string), text `JSON.parse` rejects, or a parsed value. */
  datatype Lectura = Ausente | Corrupta | Leida(datos: Json)

  datatype Carga = Carga(notas: seq<Nota>, filtro: string, borrarClave: bool)

  /**
   * The field checks of `cargarEstado` applied to the current `notas` and
   * `filtro`; `borrarClave` says the key is removed.
   */
  function CargarCampos(notas: seq<Nota>, filtro: string, l: Lectura): (r: Carga)
    ensures r.borrarClave <==> l == Corrupta || l == Leida(JsonNulo)
    ensures r.borrarClave || l.Ausente? ==> r.notas == notas && r.filtro == filtro
    ensures r.notas != notas ==> l.Leida? && l.datos.JsonObjeto? && l.datos.notas == Arreglo(r.notas)
    ensures r.filtro != filtro ==> l.Leida? && l.datos.JsonObjeto? && l.datos.filtro == Cadena(r.filtro)
    ensures l.Leida? && l.datos.JsonObjeto? && l.datos.notas.Arreglo? ==> r.notas == l.datos.notas.lista
    ensures l.Leida? && l.datos.JsonObjeto? && l.datos.filtro.Cadena? ==> r.filtro == l.datos.filtro.s
  {
    match l
    case Ausente => Carga(notas, filtro, false)
    case Corrupta => Carga(notas, filtro, true)
    case Leida(JsonNulo) => Carga(notas, filtro, true)
    case Leida(JsonOtro) => Carga(notas, filtro, false)
    case Leida(JsonObjeto(n, f)) =>
      Carga(if n.Arreglo? then n.lista else notas, if f.Cadena? then f.s else filtro, false)
  }

  /**
   * The checks are made field by field: an array of notes is taken even when
   * the filter beside it is not a string, and a string filter is taken as it
   * is, recognised or not.
   */
  lemma CargaCampoACampo(antes: seq<Nota>, filtroAntes: string, notas: seq<Nota>, filtro: string)
    ensures CargarCampos(antes, filtroAntes, Leida(JsonObjeto(Arreglo(notas), OtroCampo))) == Carga(notas, filtroAntes, false)
    ensures CargarCampos(antes, filtroAntes, Leida(JsonObjeto(OtroCampo, Cadena(filtro)))) == Carga(antes, filtro, false)
  {
  }

  /** What `guardarEstado` writes, as a later read would see it. */
  function Guardar(notas: seq<Nota>, filtro: string): Lectura {
    Leida(JsonObjeto(Arreglo(notas), Cadena(filtro)))
  }

  /** Loading what was saved restores it, whatever the state before the load. */
  lemma CargarGuardar(antes: seq<Nota>, filtroAntes: string, notas: seq<Nota>, filtro: string)
    ensures CargarCampos(antes, filtroAntes, Guardar(notas, filtro)) == Carga(notas, filtro, false)
  {
  }

  /** The board's state: `estado.notas`, `estado.filtro` and the storage key `tablon_estado`. */
  class Tablon {
    var notas: seq<Nota>
    var filtro: string
    var almacen: Lectura

    /** `estado` at start-up: no notes, the filter from the fragment; `almacen` is what the key holds. */
    constructor (hash: string, almacen: Lectura)
      ensures notas == [] && filtro == ObtenerFiltroDesdeHash(hash) && this.almacen == almacen
    {
      notas := [];
      filtro := ObtenerFiltroDesdeHash(hash);
      this.almacen := almacen;
    }

    /** `guardarEstado`. */
    method GuardarEstado()
      modifies this`almacen
      ensures almacen == Guardar(notas, filtro)
    {
      almacen := Guardar(notas, filtro);
    }

    /** `cargarEstado`. */
    method CargarEstado()
      modifies this
      ensures var c := CargarCampos(old(notas), old(filtro), old(almacen));
        notas == c.notas && filtro == c.filtro && almacen == (if c.borrarClave then Ausente else old(almacen))
    {
      match almacen {
        case Ausente =>
        case Corrupta =>
          almacen := Ausente;
        case Leida(datos) =>
          match datos {
            case JsonNulo =>
              almacen := Ausente;
            case JsonOtro =>
            case JsonObjeto(n, f) =>
              if n.Arreglo? { notas := n.lista; }
              if f.Cadena? { filtro := f.s; }
          }
      }
    }

    /** The `hashchange` listener: the filter follows the fragment; nothing is saved. */
    method AlCambiarHash(hash: string)
      modifies this`filtro
      ensures filtro == ObtenerFiltroDesdeHash(hash)
    {
      filtro := ObtenerFiltroDesdeHash(hash);
    }

    /** `onSubmitNota`: a valid note is appended and the state saved; an invalid one changes nothing. */
    method AlEnviarNota(texto: string, fecha: string, prioridad: Option<int>, id: string)
      returns (r: Result<Nota, string>)
      modifies this
      ensures r == CrearNota(texto, fecha, prioridad, id)
      ensures filtro == old(filtro)
      ensures r.Ok? ==> notas == old(notas) + [r.value] && almacen == Guardar(notas, filtro)
      ensures r.Err? ==> notas == old(notas) && almacen == old(almacen)
    {
      r := CrearNota(texto, fecha, prioridad, id);
      if r.Ok? {
        notas := notas + [r.value];
        GuardarEstado();
      }
    }

    /** `onAccionNota`: the button `acc` of the note `id`; `confirmado` answers the dialog. */
    method AlAccionNota(id: string, acc: string, confirmado: bool)
      modifies this
      ensures notas == AccionNota(old(notas), id, acc, confirmado) && filtro == old(filtro)
      ensures almacen == if BuscarIndice(old(notas), id) < 0 then old(almacen) else Guardar(notas, filtro)
    {
      var idx := BuscarIndice(notas, id);
      if idx < 0 {
        return;
      }
      ghost var esperado := AccionNota(notas, id, acc, confirmado);
      assert BORRAR != COMPLETAR by { assert BORRAR[0] != COMPLETAR[0]; }
      if acc == BORRAR && confirmado {
        notas := QuitarEn(notas, idx);
      }
      GuardarEstado();
      if acc == COMPLETAR {
        notas := CompletarEn(notas, idx);
      }
      assert notas == esperado;
      GuardarEstado();
    }

    /** The `message` listener of the page whose origin is `propio`. */
    method AlRecibirMensaje(propio: string, ev: Evento)
      modifies this
      ensures notas == ManejarMensaje(old(notas), propio, ev) && filtro == old(filtro)
      ensures almacen == if ev.origen == propio && ev.dato.Objeto? && ev.dato.tipo == Texto(BORRADO)
                         then Guardar(notas, filtro) else old(almacen)
    {
      if ev.origen != propio {
        return;
      }
      if ev.dato.NoObjeto? {
        return;
      }
      if ev.dato.tipo == Texto(BORRADO) {
        notas := QuitarPorId(notas, ev.dato.id);
        GuardarEstado();
      }
    }

    /** The cards `render` draws on the day `hoy`: the current filter's notes, in sorted order. */
    function Visibles(hoy: Fecha): (r: seq<Nota>)
      reads this
      ensures Ordenada(r)
      ensures forall x :: multiset(r)[x] == if EnVentana(x, filtro, hoy) then multiset(notas)[x] else 0
    {
      OrdenarNotas(FiltrarNotas(notas, filtro, hoy))
    }
  }
}
