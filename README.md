# NotasApp note board — a verified Dafny model

NotasApp is a single-page note board. A user creates notes with a text, a
date and a priority from 1 to 3. The user picks a view from the URL fragment
(`#hoy` for today, `#semana` for the coming week, `#todas` for all notes),
marks notes done, deletes them, and keeps them in local storage. A popup
window can send back a deletion message. This project models the core of
`DWEC_U3_NotasApp_Apellido1-Apellido2/src/app.js` and proves what it promises:

- `crearNota`: `Notas.CrearNota`, with the fresh id passed in.
- `obtenerFiltroDesdeHash`: `Filtros.ObtenerFiltroDesdeHash`, with the value of `location.hash` passed in.
- `filtrarNotas`: `Filtros.FiltrarNotas`, with today's date passed in.
- `ordenarNotas`: `Orden.OrdenarNotas`, a stable insertion sort under the source's three-key comparator.
- `escapeHtml`: `Cadenas.EscapeHtml`, with `Cadenas.Desescapar` as its inverse.
- The global `estado`: the class `Estado.Tablon`. Its fields are `notas`, `filtro` and `almacen`, the record under the storage key `tablon_estado`. Its methods are the handlers that change the state: form submission, the note buttons, `hashchange`, the `message` listener and `cargarEstado`. Each method is proved against a pure function of the old state (`AccionNota`, `ManejarMensaje`, `CargarCampos`), and the properties are proved about those functions.

Modules follow the parts of the program:

- `Opciones`: Option and Result.
- `Fechas`: calendar dates, the `YYYY-MM-DD` text form, day numbers.
- `Cadenas`: `trim`, lower case, HTML escaping.
- `Notas`: the note record and `crearNota`.
- `Filtros`: the fragment and the filter.
- `Orden`: the comparator and the sort.
- `Estado`: state and handlers.

A note's date is kept as a `Fecha(anio, mes, dia)` triple. Its stored text is
`IsoFecha(fecha)`. Dates are compared through `DiaNumero`, the number of days
since 0000-01-01. Differences of day numbers have the sign of the millisecond
differences of the JavaScript `Date`s at UTC midnight. `DiaNumeroSiguiente`
proves that consecutive days get consecutive numbers, and `DiaNumeroMonotono`
that day order is calendar order.

Points where the code behaves differently from what a reader might expect, all modelled as the code has them:

- `cargarEstado` checks each field on its own. It takes an array of notes even when `filtro` is not a string, and it takes any string as the filter. An unknown filter then shows every note.
- A parsed `null` also clears the key. Reading `null.notas` throws inside the `try`.
- The `hashchange` listener does not save the state.

## Model

| member | source | states |
|---|---|---|
| `Fechas.ParseIso` | DWEC_U3_NotasApp_Apellido1-Apellido2/src/app.js:59-60 | a date string is accepted only when it has the shape `YYYY-MM-DD` and names a real calendar date |
| `Fechas.ParseIsoDeIso` | DWEC_U3_NotasApp_Apellido1-Apellido2/src/app.js:59-61 | reading the `YYYY-MM-DD` text of a valid date gives back that date |
| `Fechas.IsoDeParseIso` | DWEC_U3_NotasApp_Apellido1-Apellido2/src/app.js:59-61 | a string that reads as a date equals the `YYYY-MM-DD` text of that date, so `toISOString().slice(0,10)` stores the input unchanged |
| `Fechas.IsoInyectiva` | DWEC_U3_NotasApp_Apellido1-Apellido2/src/app.js:70-71 | two valid dates have the same text exactly when they are equal, so the string test of `#hoy` is a date test |
| `Fechas.DiaNumeroSiguiente` | DWEC_U3_NotasApp_Apellido1-Apellido2/src/app.js:73-74 | day numbers count days: 0000-01-01 is day 0, and the calendar day after a valid date has the next number, so `+ 7` in the week window means seven days |
| `Fechas.DiaNumeroMonotono` | DWEC_U3_NotasApp_Apellido1-Apellido2/src/app.js:82 | an earlier calendar date has a smaller day number, and equal day numbers mean equal dates |
| `Cadenas.TrimEsCorte` | DWEC_U3_NotasApp_Apellido1-Apellido2/src/app.js:57 | the trimmed text is a contiguous slice of the input with only whitespace before and after it |
| `Cadenas.Trim` | DWEC_U3_NotasApp_Apellido1-Apellido2/src/app.js:57 | trimming never lengthens a text, and a text that neither starts nor ends with whitespace is returned unchanged |
| `Cadenas.TrimSinBordes` | DWEC_U3_NotasApp_Apellido1-Apellido2/src/app.js:57 | a non-empty trimmed text neither starts nor ends with whitespace |
| `Cadenas.TrimVacio` | DWEC_U3_NotasApp_Apellido1-Apellido2/src/app.js:57-60 | the trimmed text is empty exactly when every character of the input is whitespace |
| `Cadenas.TrimIdempotente` | DWEC_U3_NotasApp_Apellido1-Apellido2/src/app.js:57 | trimming an already trimmed text changes nothing |
| `Cadenas.Minusculas` | DWEC_U3_NotasApp_Apellido1-Apellido2/src/app.js:65 | lower-casing keeps the length and maps each character on its own: each of `A`-`Z` to the same letter in lower case (code point + 32), and every other character to itself |
| `Cadenas.MinusculasIdempotente` | DWEC_U3_NotasApp_Apellido1-Apellido2/src/app.js:65 | lower-casing twice is lower-casing once |
| `Cadenas.EscaparChar` | DWEC_U3_NotasApp_Apellido1-Apellido2/src/app.js:181 | each of `& < > " '` becomes a text of at least four characters starting with `&`; every other character is kept as it is |
| `Cadenas.EscapeHtml` | DWEC_U3_NotasApp_Apellido1-Apellido2/src/app.js:180-182 | the escaped text is at least as long as the input and at most six times as long, and it is exactly as long when, and only when, the input has none of `& < > " '` |
| `Cadenas.DesescaparEscape` | DWEC_U3_NotasApp_Apellido1-Apellido2/src/app.js:180-182 | decoding the five entities recovers the original text exactly: every other character is copied unchanged, in order |
| `Cadenas.EscapeSeguro` | DWEC_U3_NotasApp_Apellido1-Apellido2/src/app.js:180-182 | escaped text contains no `<`, `>`, `"` or `'`, and every `&` in it begins one of the five entities |
| `Cadenas.EscapeConcat` | DWEC_U3_NotasApp_Apellido1-Apellido2/src/app.js:181 | escaping works character by character: the escape of a concatenation is the concatenation of the escapes |
| `Cadenas.EscapeSinReservados` | DWEC_U3_NotasApp_Apellido1-Apellido2/src/app.js:181 | text without any of `& < > " '` is returned unchanged |
| `Notas.NormalizarPrioridad` | DWEC_U3_NotasApp_Apellido1-Apellido2/src/app.js:58 | the priority is in [1,3]; NaN, zero and values up to 1 give 1; values from 1 to 3 are kept; values of 3 and above give 3 |
| `Notas.CrearNota` | DWEC_U3_NotasApp_Apellido1-Apellido2/src/app.js:56-62 | fails with the source's message exactly when the text is all whitespace or the date does not read; otherwise the note has the given id, the trimmed text (non-empty, no whitespace at either end), the valid date whose text is the input, the normalised priority, and is not completed |
| `Notas.CrearNotaValida` | DWEC_U3_NotasApp_Apellido1-Apellido2/src/app.js:56-62 | every created note has non-empty trimmed text, a valid date and a priority in [1,3] |
| `Notas.CrearNotaRechazaTexto` | DWEC_U3_NotasApp_Apellido1-Apellido2/src/app.js:57-60 | the empty text and a text of blanks are rejected whatever the date |
| `Notas.CrearNotaRechazaFecha` | DWEC_U3_NotasApp_Apellido1-Apellido2/src/app.js:59-60 | `not-a-date` and the nonexistent date `2024-02-30` are rejected |
| `Notas.CrearNotaEjemplo` | DWEC_U3_NotasApp_Apellido1-Apellido2/src/app.js:56-62 | `("  Comprar leche ", "2024-06-01", 7)` gives the note `Comprar leche` dated 2024-06-01 with priority 3 |
| `Filtros.ObtenerFiltroDesdeHash` | DWEC_U3_NotasApp_Apellido1-Apellido2/src/app.js:64-67 | the result is always one of `#hoy`, `#semana`, `#todas`; it is `#hoy` or `#semana` exactly when the lower-cased fragment is that value, and `#todas` otherwise (the empty fragment included) |
| `Filtros.FiltroIgnoraMayusculas` | DWEC_U3_NotasApp_Apellido1-Apellido2/src/app.js:65 | a fragment and its lower-cased form select the same filter |
| `Filtros.FiltroEjemplos` | DWEC_U3_NotasApp_Apellido1-Apellido2/src/app.js:64-67 | `#HoY` selects `#hoy`, `#Semana` selects `#semana`, and the empty and an unrecognised fragment select `#todas` |
| `Filtros.EnVentanaSignifica` | DWEC_U3_NotasApp_Apellido1-Apellido2/src/app.js:70-74 | the two `filter` tests: with real dates, `#hoy` keeps a note exactly when it is dated today, `#semana` keeps no note dated before today, and any other filter keeps every note |
| `Filtros.Quedarse` | DWEC_U3_NotasApp_Apellido1-Apellido2/src/app.js:71-74 | the `filter` call keeps a subsequence of the input holding every matching note as often as the input does and no other note |
| `Filtros.FiltrarNotas` | DWEC_U3_NotasApp_Apellido1-Apellido2/src/app.js:69-77 | the result is a subsequence of the input holding exactly the notes in the filter's window, as often as in the input; a filter other than `#hoy` and `#semana` returns the input unchanged |
| `Filtros.FiltrarHoy` | DWEC_U3_NotasApp_Apellido1-Apellido2/src/app.js:70-71 | with `#hoy` and real dates, a note is kept exactly when it is in the input and dated today |
| `Filtros.FiltrarSemana` | DWEC_U3_NotasApp_Apellido1-Apellido2/src/app.js:72-75 | with `#semana`, a note is kept exactly when it is in the input and dated from today to today + 7 days inclusive |
| `Filtros.FiltrarIdempotente` | DWEC_U3_NotasApp_Apellido1-Apellido2/src/app.js:69-77 | filtering a filtered list again with the same filter changes nothing |
| `Filtros.SemanaComoEscrito` | DWEC_U3_NotasApp_Apellido1-Apellido2/src/app.js:73-74 | as written, at any time after midnight, the `#semana` test keeps exactly the notes dated from today + 1 to today + 7 |
| `Filtros.SemanaComoEscritoPierdeHoy` | DWEC_U3_NotasApp_Apellido1-Apellido2/src/app.js:73-74 | a note dated today is in the intended window but fails the written test once the current time is past midnight |
| `Filtros.SemanaComoEscritoMedianoche` | DWEC_U3_NotasApp_Apellido1-Apellido2/src/app.js:73-74 | when the current time is exactly UTC midnight, the written `#semana` test keeps exactly the notes of the intended window |
| `Orden.CompararTexto` | DWEC_U3_NotasApp_Apellido1-Apellido2/src/app.js:83 | the text comparison returns -1, 0 or 1 |
| `Orden.CompararTextoLexicografico` | DWEC_U3_NotasApp_Apellido1-Apellido2/src/app.js:83 | the text comparison is negative exactly when the first text is a proper prefix of the second, or the two agree up to a position where the first has the smaller code point |
| `Orden.CompararTextoAntisimetrico` | DWEC_U3_NotasApp_Apellido1-Apellido2/src/app.js:83 | swapping the texts negates the result, and the result is 0 exactly for equal texts |
| `Orden.CompararTextoTransitivo` | DWEC_U3_NotasApp_Apellido1-Apellido2/src/app.js:83 | the text order is transitive |
| `Orden.CompararClaves` | DWEC_U3_NotasApp_Apellido1-Apellido2/src/app.js:80-84 | the comparator orders by priority descending, then by `DiaNumero` of the date ascending, then by `CompararTexto`; it is zero exactly when priority, date and text all agree |
| `Orden.CompararAntisimetrico` | DWEC_U3_NotasApp_Apellido1-Apellido2/src/app.js:80-84 | the comparator is antisymmetric, so any two notes are ordered one way or the other |
| `Orden.CompararTransitivo` | DWEC_U3_NotasApp_Apellido1-Apellido2/src/app.js:80-84 | the comparator is transitive, so it is a consistent comparator for `sort` |
| `Orden.EmpateTransitivo` | DWEC_U3_NotasApp_Apellido1-Apellido2/src/app.js:80-84 | two notes that both tie with a third tie with each other |
| `Orden.Insertar` | DWEC_U3_NotasApp_Apellido1-Apellido2/src/app.js:80 | inserting a note gives the old notes plus that note, as a multiset |
| `Orden.OrdenarNotas` | DWEC_U3_NotasApp_Apellido1-Apellido2/src/app.js:79-85 | the sorted list is a permutation of the input and is in comparator order; the input, a value, is not changed |
| `Orden.OrdenarFijaOrdenadas` | DWEC_U3_NotasApp_Apellido1-Apellido2/src/app.js:79-85 | a list already in comparator order is returned unchanged |
| `Orden.OrdenarIdempotente` | DWEC_U3_NotasApp_Apellido1-Apellido2/src/app.js:79-85 | sorting twice gives the same result as sorting once |
| `Orden.OrdenarEstable` | DWEC_U3_NotasApp_Apellido1-Apellido2/src/app.js:80 | the sort is stable, as `Array.prototype.sort` is: the notes that tie with any given note appear in the output in their input order |
| `Orden.OrdenadaSignifica` | DWEC_U3_NotasApp_Apellido1-Apellido2/src/app.js:81-83 | in sorted notes with real dates, priority never rises; at equal priority the date never goes back; at equal priority and date the text never goes back |
| `Estado.BuscarIndice` | DWEC_U3_NotasApp_Apellido1-Apellido2/src/app.js:133 | `findIndex` gives the first index whose id matches, or -1 exactly when no note has that id |
| `Estado.QuitarEn` | DWEC_U3_NotasApp_Apellido1-Apellido2/src/app.js:135 | `splice(idx, 1)` removes exactly the note at `idx`: one note fewer, the earlier notes in place, the later ones moved down by one |
| `Estado.CompletarEn` | DWEC_U3_NotasApp_Apellido1-Apellido2/src/app.js:138 | marking done changes only the note at `idx`, and only its `completada` flag |
| `Estado.AccionNota` | DWEC_U3_NotasApp_Apellido1-Apellido2/src/app.js:129-142 | an id with no match, an unknown action, and `borrar` without confirmation change nothing; a confirmed `borrar` splices out the first note with the id; `completar` completes only that note |
| `Estado.BorrarQuitaUna` | DWEC_U3_NotasApp_Apellido1-Apellido2/src/app.js:133-135 | a confirmed deletion removes one occurrence of the first matching note and keeps the rest as a subsequence, in order |
| `Estado.AnadirYBorrar` | DWEC_U3_NotasApp_Apellido1-Apellido2/src/app.js:133-135 | deleting with confirmation a note appended to a board on which no earlier note has its id gives back that board |
| `Estado.CrearYBorrar` | DWEC_U3_NotasApp_Apellido1-Apellido2/src/app.js:114-135 | for any text, date, priority and id that `crearNota` accepts, appending the created note to a board with no note of that id (as submission does) and then deleting it by its id with confirmation gives back the board unchanged |
| `Estado.QuitarPorId` | DWEC_U3_NotasApp_Apellido1-Apellido2/src/app.js:173 | the `filter` by id keeps, in order, a subsequence with every note of another id as often as before and no note with that id |
| `Estado.ManejarMensaje` | DWEC_U3_NotasApp_Apellido1-Apellido2/src/app.js:154-178 | a message from another origin, a non-object payload, or any type other than `BORRADO` changes nothing; a same-origin `BORRADO` removes every note with the given id and keeps all others in order |
| `Estado.ManejarMensajeComoEscrito` | DWEC_U3_NotasApp_Apellido1-Apellido2/src/app.js:154-178 | with the nesting as written, a message from another origin or with a non-object payload changes nothing, and no message adds or reorders notes |
| `Estado.MensajeComoEscritoNuncaBorra` | DWEC_U3_NotasApp_Apellido1-Apellido2/src/app.js:162-177 | with the `BORRADO` test nested inside the `SNAPSHOT` test, no message ever changes the notes |
| `Estado.MensajeBorradoDiscrepa` | DWEC_U3_NotasApp_Apellido1-Apellido2/src/app.js:162-177 | a same-origin `BORRADO` naming the board's only note leaves it in place as written and removes it as intended |
| `Estado.CargarCampos` | DWEC_U3_NotasApp_Apellido1-Apellido2/src/app.js:24-35 | an absent value changes nothing; the key is cleared exactly when the parse fails or yields `null`, and then nothing changes; `notas` is replaced only by an array and always by one; `filtro` is replaced only by a string and always by one |
| `Estado.CargaCampoACampo` | DWEC_U3_NotasApp_Apellido1-Apellido2/src/app.js:29-30 | each field is checked on its own: an array of notes is taken beside a non-string filter, and a string filter beside a non-array |
| `Estado.CargarGuardar` | DWEC_U3_NotasApp_Apellido1-Apellido2/src/app.js:11-35 | loading what `guardarEstado` wrote restores exactly the saved notes and filter and keeps the key |
| `Estado.Tablon.constructor` | DWEC_U3_NotasApp_Apellido1-Apellido2/src/app.js:6-9 | the state starts with no notes and the filter taken from the fragment |
| `Estado.Tablon.GuardarEstado` | DWEC_U3_NotasApp_Apellido1-Apellido2/src/app.js:11-22 | the storage record becomes the current notes and filter |
| `Estado.Tablon.CargarEstado` | DWEC_U3_NotasApp_Apellido1-Apellido2/src/app.js:24-35 | the new notes and filter are those `CargarCampos` gives, and the key is removed exactly when it says so |
| `Estado.Tablon.AlCambiarHash` | DWEC_U3_NotasApp_Apellido1-Apellido2/src/app.js:51-54 | the filter becomes the one selected by the new fragment, and nothing else changes |
| `Estado.Tablon.AlEnviarNota` | DWEC_U3_NotasApp_Apellido1-Apellido2/src/app.js:114-127 | a valid note is appended after the existing notes and the state is saved; an invalid one changes nothing |
| `Estado.Tablon.AlAccionNota` | DWEC_U3_NotasApp_Apellido1-Apellido2/src/app.js:129-142 | the notes become `AccionNota` of the old notes and the filter is kept; the state is saved unless no note has the id |
| `Estado.Tablon.AlRecibirMensaje` | DWEC_U3_NotasApp_Apellido1-Apellido2/src/app.js:154-178 | the notes become `ManejarMensaje` of the old notes; the state is saved only after an accepted `BORRADO` |
| `Estado.Tablon.Visibles` | DWEC_U3_NotasApp_Apellido1-Apellido2/src/app.js:90 | the cards drawn are in comparator order and are exactly the notes in the current filter's window, each as often as on the board |

## Left out

- Rendering: `innerHTML` and `createElement` in `render`, the button wiring, and the `DOMContentLoaded` and `hashchange` set-up (app.js:39-54, 87-107). Only the list `render` computes is modelled, as `Tablon.Visibles`.
- Dialogs: `alert` is a no-op. `confirm` is the boolean parameter `confirmado`.
- `formatearFecha` depends on `Intl.DateTimeFormat` and the browser's locale.
- The fullscreen toggle only calls browser APIs.
- `abrirPanelDiario`: `window.open`, `setTimeout` and `postMessage` are cross-window messaging and timing. The snapshot it posts is `FiltrarNotas` of the state. The code posts it with the target origin `"*"`, not the page's own origin.
- Storage is not modelled as text. `localStorage` and `JSON.stringify`/`JSON.parse` are library I/O. The storage record and the object read back are abstract values (`Lectura`, `Json`, `Campo`). Write failures, which `guardarEstado` logs and swallows, are not modelled.
- `Campo.Arreglo` holds notes. `cargarEstado` does not check the elements of the stored array, and the model does not capture arrays of other values.
- Notes loaded from storage are assumed to carry real dates. For a stored date that is not a calendar date, `new Date` gives NaN: the comparator then falls through to the text (app.js:82-83) and `#semana` drops the note (app.js:74). The model instead gives such a triple a day number (`DiaNumero`), so its sort position and its `#semana` membership can differ from the source's. Notes made by `crearNota` always have real dates (`Notas.CrearNotaValida`).
- Ids: the `Math.random` id is a parameter. `String(texto)` conversion of non-strings is treated as already done.
- `Notas.NormalizarPrioridad`: `Number(prioridad)` is taken as an integer or NaN. Fractional and infinite values are not modelled, and under the source a fractional value such as 2.5 would be stored unclamped to an integer.
- `Notas.CrearNota`: only the `YYYY-MM-DD` form (what a date input yields) is read. The other formats `new Date` accepts are not modelled, nor how a given engine reads a nonexistent date such as `2024-02-30`; the model rejects it.
- `Orden.CompararTexto`: `localeCompare` is replaced by code-point lexicographic order.
- `Cadenas.Minusculas`: only `A`-`Z` are lower-cased. No other character of the full Unicode mapping lower-cases to a character of `#hoy`, `#semana` or `#todas`, so the filter chosen is the same.
- `Filtros.FiltrarNotas`: today is the UTC calendar date of the current instant, the day `toISOString` gives. The daylight-saving shift of `setDate(+7)` and the time-zone offset of `new Date()` are not modelled. The intended window (today to today + 7 days inclusive) is modelled; the written test is in Findings.
- The `SNAPSHOT` branch of the message listener calls `renderNotas`, which app.js does not define. It changes no state and is not modelled.

## Findings

In the message listener at app.js:154-178, the `}` at the start of line 178 closes the block of the `SNAPSHOT` test at line 162. The listener's own arrow-function body, opened on line 154, is never closed. The `)` that follows on line 178 is therefore a syntax error: as the text stands, app.js does not parse at all and no handler is registered. Read with the listener's missing `}` added at its end, the `BORRADO` deletion sits inside the `SNAPSHOT` block, where `tipo` is already `"SNAPSHOT"`, so it can never run. `Estado.ManejarMensajeComoEscrito` models that reading. The model takes the evidently intended layout, with `BORRADO` tested beside `SNAPSHOT`.

| source | as written | input that shows it | evidently intended | confidence | as-written member | corrected member |
|---|---|---|---|---|---|---|
| DWEC_U3_NotasApp_Apellido1-Apellido2/src/app.js:162-177 | the `BORRADO` test is nested inside `if (mensaje.tipo === "SNAPSHOT")`, so a deletion from the popup is never applied (once the missing `}` that makes the file parse is added at the end of the listener) | a same-origin message `{tipo: "BORRADO", id: "n1"}` while note `n1` is on the board | remove every note with that id | high, not executed | `Estado.MensajeComoEscritoNuncaBorra` | `Estado.ManejarMensaje` |
| DWEC_U3_NotasApp_Apellido1-Apellido2/src/app.js:73-74 | `#semana` compares each note's UTC midnight with the current instant `new Date()`, so notes dated today are dropped once the day has begun, and notes dated today + 7 are kept | a note dated today, viewed under `#semana` at any time after midnight UTC | keep the notes from today to today + 7 days inclusive | medium, not executed | `Filtros.SemanaComoEscritoPierdeHoy` | `Filtros.FiltrarSemana` |
