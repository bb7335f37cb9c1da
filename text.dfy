/**
 * Whitespace trimming, shared by the two cores that ask whether a string is blank:
 * `String.prototype.trim` in the chat client and `str.strip()` in the ingestion
 * service. The two languages disagree on what counts as whitespace, so each
 * function takes the language whose rule applies.
 */
module Text {

  datatype Language = JavaScript | Python

  /**
   * JavaScript's white space and line terminators (what `trim` removes), or the
   * characters Python's `str.isspace` accepts (what `strip()` removes).
   */
  predicate IsSpace(lang: Language, c: char)
  {
    match lang
    case JavaScript =>
      c == ' ' || ('\t' <= c <= '\r') || c == '\U{A0}' || c == '\U{1680}' ||
      ('\U{2000}' <= c <= '\U{200A}') || c == '\U{2028}' || c == '\U{2029}' ||
      c == '\U{202F}' || c == '\U{205F}' || c == '\U{3000}' || c == '\U{FEFF}'
    case Python =>
      c == ' ' || ('\t' <= c <= '\r') || ('\U{1C}' <= c <= '\U{1F}') ||
      c == '\U{85}' || c == '\U{A0}' || c == '\U{1680}' || ('\U{2000}' <= c <= '\U{200A}') ||
      c == '\U{2028}' || c == '\U{2029}' || c == '\U{202F}' || c == '\U{205F}' || c == '\U{3000}'
  }

  /** Every character of `s` is whitespace (vacuously true of the empty string). */
  ghost predicate AllSpace(s: string, lang: Language)
  {
    forall i :: 0 <= i < |s| ==> IsSpace(lang, s[i])
  }

  /** `s` without its leading whitespace. */
  function TrimStart(s: string, lang: Language): (r: string)
    ensures |r| <= |s| && r == s[|s| - |r|..]
    ensures r == [] || !IsSpace(lang, r[0])
  {
    if s == [] || !IsSpace(lang, s[0]) then s else TrimStart(s[1..], lang)
  }

  /** `s` without its trailing whitespace. */
  function TrimEnd(s: string, lang: Language): (r: string)
    ensures |r| <= |s| && r == s[..|r|]
    ensures r == [] || !IsSpace(lang, r[|r| - 1])
  {
    if s == [] || !IsSpace(lang, s[|s| - 1]) then s else TrimEnd(s[..|s| - 1], lang)
  }

  /** Both ends trimmed, as `trim()` / `strip()` do: neither end of the result is whitespace. */
  function Trim(s: string, lang: Language): (r: string)
    ensures |r| <= |s|
    ensures r == [] || (!IsSpace(lang, r[0]) && !IsSpace(lang, r[|r| - 1]))
  {
    TrimStart(TrimEnd(s, lang), lang)
  }

  /** Trimming only removes whitespace: what is left over is all whitespace. */
  lemma {:induction false} TrimStartDropsSpace(s: string, lang: Language)
    ensures AllSpace(s[..|s| - |TrimStart(s, lang)|], lang)
  {
    if s != [] && IsSpace(lang, s[0]) {
      TrimStartDropsSpace(s[1..], lang);
      var k := |s| - |TrimStart(s, lang)|;
      assert s[..k] == [s[0]] + s[1..][..k - 1];
    }
  }

  lemma {:induction false} TrimEndDropsSpace(s: string, lang: Language)
    ensures AllSpace(s[|TrimEnd(s, lang)|..], lang)
  {
    if s != [] && IsSpace(lang, s[|s| - 1]) {
      var p := s[..|s| - 1];
      TrimEndDropsSpace(p, lang);
      var k := |TrimEnd(s, lang)|;
      assert s[k..] == p[k..] + [s[|s| - 1]];
    }
  }

  lemma {:induction false} TrimStartKeepsLast(s: string, lang: Language)
    requires s != [] && !IsSpace(lang, s[|s| - 1])
    ensures TrimStart(s, lang) != []
  {
    if IsSpace(lang, s[0]) {
      TrimStartKeepsLast(s[1..], lang);
    }
  }

  /** A string trims to the empty string exactly when it is made of whitespace only. */
  lemma TrimEmptyIff(s: string, lang: Language)
    ensures Trim(s, lang) == [] <==> AllSpace(s, lang)
  {
    var e := TrimEnd(s, lang);
    TrimEndDropsSpace(s, lang);
    TrimStartDropsSpace(e, lang);
    if Trim(s, lang) == [] {
      // a non-empty TrimEnd result ends in a non-space, which TrimStart keeps
      assert e == [] by {
        if e != [] { TrimStartKeepsLast(e, lang); }
      }
      assert s[|e|..] == s;
    } else {
      var r := Trim(s, lang);
      assert !IsSpace(lang, r[0]);
      assert r[0] == s[|e| - |r|];
    }
  }
}
