/**
 * `DocumentValidator.validate_document` (sire_converter.py:1028-1054): the
 * checks an identity-document number must pass before a row is converted.
 */
module DocumentValidator {
  import opened Strings

  /** The tokens the source rejects as spelled-out nulls (line 1047). */
  const NullTokens: seq<string> := ["NAN", "NONE", "NULL", "N/A", "-"]

  /** The stripped, upper-cased text the length and pattern checks inspect. */
  function Canonical(doc: string): string {
    Upper(Strip(doc))
  }

  /** The distinct characters of `s`, Python's `set(s)`. */
  function Distinct(s: string): set<char> {
    set c | c in s
  }

  /** One character, repeated at least once: what `len(set(s)) == 1` detects. */
  predicate OneRepeatedChar(s: string) {
    s != [] && forall i :: 0 <= i < |s| ==> s[i] == s[0]
  }

  /**
   * The checks in source order.  The result is `(true, "OK")` exactly when the
   * input is non-empty, its canonical form has 5 to 20 characters and, with the
   * hyphens removed, is not a single repeated character.  The null-token check
   * can never fire, because every token is shorter than five characters.
   */
  function ValidateDocument(doc: string): (r: (bool, string))
    ensures r.0 <==> r.1 == "OK"
    ensures r.0 <==>
      doc != "" && 5 <= |Canonical(doc)| <= 20 && !OneRepeatedChar(RemoveChar(Canonical(doc), '-'))
    ensures doc == "" ==> r == (false, "Documento vacío")
    ensures doc != "" && |Canonical(doc)| < 5 ==> r == (false, "Documento muy corto")
    ensures doc != "" && |Canonical(doc)| > 20 ==> r == (false, "Documento muy largo")
    ensures doc != "" && 5 <= |Canonical(doc)| <= 20 && OneRepeatedChar(RemoveChar(Canonical(doc), '-')) ==>
      r == (false, "Documento con patrón inválido")
    ensures r.1 != "Documento inválido"
  {
    if doc == "" then (false, "Documento vacío")
    else
      var d := Upper(Strip(doc));
      if |d| < 5 then (false, "Documento muy corto")
      else if |d| > 20 then (false, "Documento muy largo")
      else if d in NullTokens then (false, "Documento inválido")
      else
        var t := RemoveChar(d, '-');
        DistinctSingleton(t);
        if |Distinct(t)| == 1 then (false, "Documento con patrón inválido")
        else (true, "OK")
  }

  // ---------------------------------------------------------------- properties

  /** A set of one distinct character is exactly a repeated character. */
  lemma DistinctSingleton(s: string)
    ensures |Distinct(s)| == 1 <==> OneRepeatedChar(s)
  {
    var a := Distinct(s);
    if OneRepeatedChar(s) {
      assert s[0] in a;
      forall c | c in a
        ensures c == s[0]
      {
        var i :| 0 <= i < |s| && s[i] == c;
      }
      assert a == {s[0]};
    } else if s != [] {
      var i :| 0 <= i < |s| && s[i] != s[0];
      assert s[0] in a && s[i] in a;
      assert s[i] in a - {s[0]};
      assert |a - {s[0]}| == |a| - 1;
    } else {
      assert a == {};
    }
  }

  /** A document that is its own canonical form. */
  lemma CanonicalIdentity(s: string)
    requires s != [] && forall i :: 0 <= i < |s| ==> IsDigit(s[i]) || s[i] == '-'
    ensures Canonical(s) == s
  {
    StripIdentity(s);
    forall i | 0 <= i < |s|
      ensures UpperChar(s[i]) == [s[i]]
    {
    }
    UpperIdentity(s);
  }

  /** A number made of one repeated digit is rejected as a pattern, whatever its length. */
  lemma RepeatedDigitRejected(s: string)
    requires 5 <= |s| <= 20
    requires OneRepeatedChar(s) && IsDigit(s[0])
    ensures ValidateDocument(s) == (false, "Documento con patrón inválido")
  {
    CanonicalIdentity(s);
    var t := RemoveChar(s, '-');
    assert s[0] in t;
    forall i | 0 <= i < |t|
      ensures t[i] == t[0]
    {
      assert t[i] in t && t[0] in t;
    }
  }

  /** `"11111111"` is refused as a repeated pattern. */
  lemma EightOnesRejected()
    ensures ValidateDocument("11111111") == (false, "Documento con patrón inválido")
  {
    RepeatedDigitRejected("11111111");
  }

  /** A run of 5 to 20 hyphens passes: with the hyphens removed nothing is left. */
  lemma HyphensAccepted(s: string)
    requires 5 <= |s| <= 20
    requires forall i :: 0 <= i < |s| ==> s[i] == '-'
    ensures ValidateDocument(s) == (true, "OK")
  {
    CanonicalIdentity(s);
    NothingLeft(s, '-');
  }

  /** Removing the only character a string holds leaves nothing. */
  lemma {:induction false} NothingLeft(s: string, c: char)
    requires forall i :: 0 <= i < |s| ==> s[i] == c
    ensures RemoveChar(s, c) == []
  {
    if s != [] {
      NothingLeft(s[1..], c);
    }
  }

  /** `"-----"` is a valid document number. */
  lemma FiveHyphensAccepted()
    ensures ValidateDocument("-----") == (true, "OK")
  {
    HyphensAccepted("-----");
  }
}
