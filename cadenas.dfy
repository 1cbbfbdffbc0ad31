/**
 * The string operations the note board relies on: `String.prototype.trim`,
 * an ASCII `toLowerCase`, and `escapeHtml`, which makes note text safe to
 * place inside markup.
 */
module Cadenas {

  /** The characters `trim` removes: ECMAScript WhiteSpace and LineTerminator. */
  predicate EsEspacio(c: char) {
    c == '\t' || c == '\n' || c == '\U{B}' || c == '\U{C}' || c == '\r' || c == ' '
    || c == '\U{A0}' || c == '\U{1680}' || ('\U{2000}' <= c <= '\U{200A}')
    || c == '\U{2028}' || c == '\U{2029}' || c == '\U{202F}' || c == '\U{205F}'
    || c == '\U{3000}' || c == '\U{FEFF}'
  }

  predicate TodoEspacios(s: string) {
    forall k :: 0 <= k < |s| ==> EsEspacio(s[k])
  }

  function QuitarInicio(s: string): (r: string)
    ensures |r| <= |s|
  {
    if s != [] && EsEspacio(s[0]) then QuitarInicio(s[1..]) else s
  }

  function QuitarFin(s: string): (r: string)
    ensures |r| <= |s|
  {
    if s != [] && EsEspacio(s[|s| - 1]) then QuitarFin(s[..|s| - 1]) else s
  }

  /** `String.prototype.trim`. */
  function Trim(s: string): (r: string)
    ensures |r| <= |s|
    ensures s == [] || (!EsEspacio(s[0]) && !EsEspacio(s[|s| - 1])) ==> r == s
  {
    QuitarFin(QuitarInicio(s))
  }

  lemma {:induction false} QuitarInicioEsSufijo(s: string) returns (i: nat)
    ensures i <= |s| && QuitarInicio(s) == s[i..]
    ensures TodoEspacios(s[..i])
    ensures QuitarInicio(s) == [] || !EsEspacio(QuitarInicio(s)[0])
  {
    if s != [] && EsEspacio(s[0]) {
      var j := QuitarInicioEsSufijo(s[1..]);
      i := j + 1;
      assert s[1..][j..] == s[i..];
      assert forall k :: 1 <= k < i ==> s[..i][k] == s[1..][..j][k - 1];
    } else {
      i := 0;
    }
  }

  lemma {:induction false} QuitarFinEsPrefijo(s: string) returns (j: nat)
    ensures j <= |s| && QuitarFin(s) == s[..j]
    ensures TodoEspacios(s[j..])
    ensures QuitarFin(s) == [] || !EsEspacio(QuitarFin(s)[|QuitarFin(s)| - 1])
  {
    if s != [] && EsEspacio(s[|s| - 1]) {
      var p := s[..|s| - 1];
      j := QuitarFinEsPrefijo(p);
      assert p[..j] == s[..j];
      assert s[j..] == p[j..] + [s[|s| - 1]];
    } else {
      j := |s|;
    }
  }

  /**
   * `Trim(s)` is the slice `s[i..i+|Trim(s)|]` with only spaces around it and
   * no space at either end.
   */
  lemma TrimEsCorte(s: string) returns (i: nat)
    ensures i + |Trim(s)| <= |s| && Trim(s) == s[i..i + |Trim(s)|]
    ensures TodoEspacios(s[..i]) && TodoEspacios(s[i + |Trim(s)|..])
    ensures Trim(s) != [] ==> !EsEspacio(Trim(s)[0]) && !EsEspacio(Trim(s)[|Trim(s)| - 1])
  {
    i := QuitarInicioEsSufijo(s);
    var t := s[i..];
    var j := QuitarFinEsPrefijo(t);
    assert Trim(s) == t[..j] == s[i..i + j];
    assert s[i + j..] == t[j..];
  }

  /** A trimmed string neither begins nor ends with a space. */
  lemma TrimSinBordes(s: string)
    ensures Trim(s) != [] ==> !EsEspacio(Trim(s)[0]) && !EsEspacio(Trim(s)[|Trim(s)| - 1])
  {
    var _ := TrimEsCorte(s);
  }

  /** Trimming leaves nothing exactly when the string is all spaces. */
  lemma TrimVacio(s: string)
    ensures Trim(s) == [] <==> TodoEspacios(s)
  {
    var i := TrimEsCorte(s);
    if Trim(s) == [] {
      assert forall k :: i <= k < |s| ==> s[i..][k - i] == s[k];
      assert forall k :: 0 <= k < i ==> s[..i][k] == s[k];
    } else {
      assert s[i] == Trim(s)[0];
    }
  }

  /** Trimming twice is trimming once. */
  lemma TrimIdempotente(s: string)
    ensures Trim(Trim(s)) == Trim(s)
  {
    var _ := TrimEsCorte(s);
    var t := Trim(s);
    if t != [] {
      assert QuitarInicio(t) == t;
      assert QuitarFin(t) == t;
    }
  }

  // ---- lower case ----

  function MinusculaChar(c: char): (r: char)
    ensures 'A' <= c <= 'Z' ==> r as int == c as int + 32
    ensures !('A' <= c <= 'Z') ==> r == c
  {
    if 'A' <= c <= 'Z' then ((c as int) + 32) as char else c
  }

  /** `toLowerCase` on the ASCII letters; every other character is kept. */
  function Minusculas(s: string): (r: string)
    ensures |r| == |s|
    ensures forall k :: 0 <= k < |s| ==> r[k] == MinusculaChar(s[k])
  {
    if s == [] then [] else [MinusculaChar(s[0])] + Minusculas(s[1..])
  }

  lemma MinusculasIdempotente(s: string)
    ensures Minusculas(Minusculas(s)) == Minusculas(s)
  {
  }

  // ---- HTML escaping ----

  const AMP := "&amp;"
  const LT := "&lt;"
  const GT := "&gt;"
  const QUOT := "&quot;"
  const APOS := "&#039;"

  predicate EsReservado(c: char) {
    c == '&' || c == '<' || c == '>' || c == '"' || c == '\''
  }

  function EscaparChar(c: char): (r: string)
    ensures EsReservado(c) ==> |r| >= 4 && r[0] == '&'
    ensures !EsReservado(c) ==> r == [c]
  {
    if c == '&' then AMP
    else if c == '<' then LT
    else if c == '>' then GT
    else if c == '"' then QUOT
    else if c == '\'' then APOS
    else [c]
  }

  /** `escapeHtml`: every reserved character replaced by its entity. */
  function EscapeHtml(s: string): (r: string)
    ensures |s| <= |r| <= 6 * |s|
    ensures |r| == |s| <==> forall k :: 0 <= k < |s| ==> !EsReservado(s[k])
  {
    if s == [] then [] else EscaparChar(s[0]) + EscapeHtml(s[1..])
  }

  /** Decodes the five entities `EscapeHtml` writes, copying every other character. */
  function Desescapar(t: string): string
    decreases |t|
  {
    if t == [] then []
    else if |t| >= |AMP| && t[..|AMP|] == AMP then "&" + Desescapar(t[|AMP|..])
    else if |t| >= |LT| && t[..|LT|] == LT then "<" + Desescapar(t[|LT|..])
    else if |t| >= |GT| && t[..|GT|] == GT then ">" + Desescapar(t[|GT|..])
    else if |t| >= |QUOT| && t[..|QUOT|] == QUOT then "\"" + Desescapar(t[|QUOT|..])
    else if |t| >= |APOS| && t[..|APOS|] == APOS then "'" + Desescapar(t[|APOS|..])
    else [t[0]] + Desescapar(t[1..])
  }

  /** One of the five entities starts at position i of t. */
  predicate EntidadEn(t: string, i: nat)
    requires i < |t|
  {
    var r := t[i..];
    (|r| >= |AMP| && r[..|AMP|] == AMP) || (|r| >= |LT| && r[..|LT|] == LT)
    || (|r| >= |GT| && r[..|GT|] == GT) || (|r| >= |QUOT| && r[..|QUOT|] == QUOT)
    || (|r| >= |APOS| && r[..|APOS|] == APOS)
  }

  lemma DesescaparAmp(rest: string)
    ensures Desescapar(AMP + rest) == "&" + Desescapar(rest)
  {
    var t := AMP + rest;
    assert t[..|AMP|] == AMP && t[|AMP|..] == rest;
  }

  lemma DesescaparLt(rest: string)
    ensures Desescapar(LT + rest) == "<" + Desescapar(rest)
  {
    var t := LT + rest;
    assert t[..|LT|] == LT && t[|LT|..] == rest;
    assert t[1] == 'l';
  }

  lemma DesescaparGt(rest: string)
    ensures Desescapar(GT + rest) == ">" + Desescapar(rest)
  {
    var t := GT + rest;
    assert t[..|GT|] == GT && t[|GT|..] == rest;
    assert t[1] == 'g';
  }

  lemma DesescaparQuot(rest: string)
    ensures Desescapar(QUOT + rest) == "\"" + Desescapar(rest)
  {
    var t := QUOT + rest;
    assert t[..|QUOT|] == QUOT && t[|QUOT|..] == rest;
    assert t[1] == 'q';
  }

  lemma DesescaparApos(rest: string)
    ensures Desescapar(APOS + rest) == "'" + Desescapar(rest)
  {
    var t := APOS + rest;
    assert t[..|APOS|] == APOS && t[|APOS|..] == rest;
    assert t[1] == '#';
  }

  lemma DesescaparOtro(c: char, rest: string)
    requires !EsReservado(c)
    ensures Desescapar([c] + rest) == [c] + Desescapar(rest)
  {
    var t := [c] + rest;
    assert t[0] == c && t[1..] == rest;
  }

  lemma EscaparCharUno(c: char, rest: string)
    ensures Desescapar(EscaparChar(c) + rest) == [c] + Desescapar(rest)
  {
    if c == '&' {
      DesescaparAmp(rest);
    } else if c == '<' {
      DesescaparLt(rest);
    } else if c == '>' {
      DesescaparGt(rest);
    } else if c == '"' {
      DesescaparQuot(rest);
    } else if c == '\'' {
      DesescaparApos(rest);
    } else {
      DesescaparOtro(c, rest);
    }
  }

  /** `Desescapar` undoes `EscapeHtml`: the text is recovered exactly, in order. */
  lemma {:induction false} DesescaparEscape(s: string)
    ensures Desescapar(EscapeHtml(s)) == s
  {
    if s != [] {
      EscaparCharUno(s[0], EscapeHtml(s[1..]));
      DesescaparEscape(s[1..]);
    }
  }

  /**
   * The escaped text holds none of `< > " '`, and every `&` in it begins one
   * of the five entities.
   */
  lemma {:induction false} EscapeSeguro(s: string)
    ensures forall k :: 0 <= k < |EscapeHtml(s)| ==>
      EscapeHtml(s)[k] != '<' && EscapeHtml(s)[k] != '>' && EscapeHtml(s)[k] != '"' && EscapeHtml(s)[k] != '\''
    ensures forall k :: 0 <= k < |EscapeHtml(s)| && EscapeHtml(s)[k] == '&' ==> EntidadEn(EscapeHtml(s), k)
  {
    if s != [] {
      var e := EscaparChar(s[0]);
      var rest := EscapeHtml(s[1..]);
      var t := EscapeHtml(s);
      EscapeSeguro(s[1..]);
      assert t == e + rest;
      forall k | 0 <= k < |t|
        ensures t[k] != '<' && t[k] != '>' && t[k] != '"' && t[k] != '\''
        ensures t[k] == '&' ==> EntidadEn(t, k)
      {
        if k < |e| {
          if EsReservado(s[0]) {
            assert t[..|e|] == e;
            assert t[k] == e[k];
            assert k == 0 ==> t[0..] == t;
          }
        } else {
          assert t[k] == rest[k - |e|];
          assert t[k..] == rest[k - |e|..];
          if t[k] == '&' {
            assert EntidadEn(rest, k - |e|);
          }
        }
      }
    }
  }

  /** Escaping works character by character: it distributes over concatenation. */
  lemma {:induction false} EscapeConcat(a: string, b: string)
    ensures EscapeHtml(a + b) == EscapeHtml(a) + EscapeHtml(b)
  {
    if a != [] {
      assert (a + b)[1..] == a[1..] + b;
      EscapeConcat(a[1..], b);
    } else {
      assert a + b == b;
    }
  }

  /** Text without reserved characters is left as it is. */
  lemma {:induction false} EscapeSinReservados(s: string)
    requires forall k :: 0 <= k < |s| ==> !EsReservado(s[k])
    ensures EscapeHtml(s) == s
  {
    if s != [] {
      EscapeSinReservados(s[1..]);
    }
  }
}
