/**
 * `DocumentTypes` (sire_converter.py lines 568-606): the SIRE code of an identity
 * document type.  Unlike the country resolver it never fails: anything it cannot place
 * is taken to be a passport.
 */
module DocumentTypes {
  import opened Wrappers
  import opened Strings
  import opened Tables
  import opened Cells
  import opened Records

  /** `DocumentTypes.CODES` in declaration order (lines 571-581). */
  const DocCodes: Table := [
    ("PASAPORTE", 3), ("PASSPORT", 3), ("PAS", 3), ("PP", 3),
    ("CEDULA DE EXTRANJERIA", 5), ("CEDULA EXTRANJERIA", 5), ("CE", 5),
    ("CARNE DIPLOMATICO", 46), ("DIPLOMATIC", 46), ("DIPLOMATICO", 46),
    ("DOCUMENTO EXTRANJERO", 10), ("FOREIGN DOCUMENT", 10),
    ("PPT", 52), ("PERMISO PROTECCION TEMPORAL", 52),
    ("VISA", 10),
    ("DNI", 3),
    ("ID", 3),
    ("NATIONAL ID", 3)
  ]

  /** The document codes SIRE knows: passport, foreigner's card, diplomatic card, foreign document, PPT. */
  predicate IsDocCode(s: string) {
    s == "3" || s == "5" || s == "46" || s == "10" || s == "52"
  }

  /** `upper().strip()`, the only normalisation the document resolver applies. */
  function Normalize(c: Cell): string {
    Strip(Upper(Str(c)))
  }

  /** The keyword fallback of lines 597-606, reached when no table key is related to `n`. */
  function KeywordCode(n: string): (r: (string, Confidence))
    ensures IsDocCode(r.0)
    ensures r.1 == Medium || r == ("3", Low)
  {
    if Contains(n, "PASAP") || Contains(n, "PASSPO") || Contains(n, "PP") then ("3", Medium)
    else if Contains(n, "CEDULA") || Contains(n, "CE") || Contains(n, "EXTRAN") then ("5", Medium)
    else if Contains(n, "DIPLOM") || Contains(n, "CARNE") then ("46", Medium)
    else if Contains(n, "PPT") || Contains(n, "PROTEC") || Contains(n, "TEMPORAL") then ("52", Medium)
    else ("3", Low)
  }

  lemma TableCodesKnown()
    ensures forall i :: 0 <= i < |DocCodes| ==> DocCodes[i].1 in {3, 5, 46, 10, 52}
  {
  }

  lemma {:induction false} KnownCodeText(code: nat)
    requires code in {3, 5, 46, 10, 52}
    ensures IsDocCode(CodeText(code))
  {
    assert NatToString(46) == NatToString(4) + [DigitChar(6)];
    assert NatToString(10) == NatToString(1) + [DigitChar(0)];
    assert NatToString(52) == NatToString(5) + [DigitChar(2)];
  }

  /**
   * The lookup of lines 590-606 on a normalised text as written: the first key, in table
   * order, that occurs in `n` or contains it gives HIGH; otherwise the keyword families.
   */
  function MatchAsWritten(n: string): (r: (string, Confidence))
    ensures IsDocCode(r.0)
    ensures r.1 == Medium || r.1 == Low || r.1 == High
    ensures r.1 == High <==> exists i :: 0 <= i < |DocCodes| && Related(DocCodes[i].0, n)
    ensures r.1 == High ==>
      exists i :: 0 <= i < |DocCodes| && Related(DocCodes[i].0, n) && r.0 == CodeText(DocCodes[i].1)
                  && forall j :: 0 <= j < i ==> !Related(DocCodes[j].0, n)
    ensures r.1 != High ==> r == KeywordCode(n)
  {
    match FirstIndex(DocCodes, (e: (string, nat)) => Related(e.0, n))
    case Some(i) =>
      TableCodesKnown();
      KnownCodeText(DocCodes[i].1);
      (CodeText(DocCodes[i].1), High)
    case None => KeywordCode(n)
  }

  /** `DocumentTypes.get_code` as written (lines 584-606); a blank value is a passport at LOW. */
  function GetCodeAsWritten(c: Cell): (r: (string, Confidence))
    ensures IsDocCode(r.0) && r.1 != Undetected
    ensures Blank(c) ==> r == ("3", Low)
  {
    if Blank(c) then ("3", Low) else MatchAsWritten(Normalize(c))
  }

  /** Containment in either direction, the HIGH test of line 593. */
  predicate Related(key: string, n: string) {
    Contains(n, key) || Contains(key, n)
  }

  /**
   * The lookup with the exact match that the comment at line 590 announces done first:
   * a text equal to a key gets that key's code at HIGH; any other text is resolved as
   * written.
   */
  function Match(n: string): (r: (string, Confidence))
    ensures IsDocCode(r.0) && r.1 != Undetected
    ensures (exists i :: 0 <= i < |DocCodes| && DocCodes[i].0 == n) ==>
      r.1 == High && exists i :: 0 <= i < |DocCodes| && DocCodes[i].0 == n && r.0 == CodeText(DocCodes[i].1)
    ensures (forall i :: 0 <= i < |DocCodes| ==> DocCodes[i].0 != n) ==> r == MatchAsWritten(n)
  {
    match FirstIndex(DocCodes, (e: (string, nat)) => e.0 == n)
    case Some(i) =>
      TableCodesKnown();
      KnownCodeText(DocCodes[i].1);
      (CodeText(DocCodes[i].1), High)
    case None => MatchAsWritten(n)
  }

  /** `DocumentTypes.get_code` with the exact match first; a blank value is a passport at LOW. */
  function GetCode(c: Cell): (r: (string, Confidence))
    ensures IsDocCode(r.0) && r.1 != Undetected
    ensures Blank(c) ==> r == ("3", Low)
  {
    if Blank(c) then ("3", Low) else Match(Normalize(c))
  }

  /** The document resolver a conversion runs: `get_code` as written or corrected. */
  function GetCodeWith(rs: Resolvers, c: Cell): (r: (string, Confidence))
    ensures IsDocCode(r.0) && r.1 != Undetected
    ensures Blank(c) ==> r == ("3", Low)
    ensures rs == AsWritten ==> r == GetCodeAsWritten(c)
    ensures rs == Corrected ==> r == GetCode(c)
  {
    match rs
    case AsWritten => GetCodeAsWritten(c)
    case Corrected => GetCode(c)
  }

  // ---------------------------------------------------------------- properties

  /** Keys are distinct, so the first equal key is the dictionary entry. */
  lemma KeysDistinct()
    ensures forall i, j :: 0 <= i < j < |DocCodes| ==> DocCodes[i].0 != DocCodes[j].0
  {
  }

  /** Every key typed exactly as in the table gets its own code at HIGH once the exact match comes first. */
  lemma KeysRecognised(i: nat)
    requires i < |DocCodes|
    ensures Match(DocCodes[i].0) == (CodeText(DocCodes[i].1), High)
  {
    KeysDistinct();
  }

  /**
   * The first keyword family of lines 597-598 never decides: "PASAP" and "PASSPO"
   * contain the key "PAS" and "PP" is itself a key, so any text holding one of them was
   * already matched at HIGH.
   */
  lemma PassportKeywordsUnreachable(n: string)
    ensures MatchAsWritten(n) != ("3", Medium)
  {
    if Contains(n, "PASAP") || Contains(n, "PASSPO") || Contains(n, "PP") {
      PassportKeywordHitsKey(n);
      if Related(DocCodes[2].0, n) {
        RelatedGivesHigh(n, 2);
      } else {
        RelatedGivesHigh(n, 3);
      }
    } else {
      KeywordNotPassport(n);
    }
  }

  lemma RelatedGivesHigh(n: string, i: nat)
    requires i < |DocCodes| && Related(DocCodes[i].0, n)
    ensures MatchAsWritten(n).1 == High
  {
  }

  lemma KeywordNotPassport(n: string)
    requires !(Contains(n, "PASAP") || Contains(n, "PASSPO") || Contains(n, "PP"))
    ensures MatchAsWritten(n) != ("3", Medium)
  {
    KeywordFallbackNotPassport(n);
  }

  lemma KeywordFallbackNotPassport(n: string)
    requires !Contains(n, "PASAP") && !Contains(n, "PASSPO") && !Contains(n, "PP")
    ensures KeywordCode(n) != ("3", Medium)
  {
  }

  lemma PassportKeywordHitsKey(n: string)
    requires Contains(n, "PASAP") || Contains(n, "PASSPO") || Contains(n, "PP")
    ensures Related(DocCodes[2].0, n) || Related(DocCodes[3].0, n)
  {
    assert DocCodes[2].0 == "PAS" && DocCodes[3].0 == "PP";
    if Contains(n, "PASAP") {
      assert IsPrefix("PAS", "PASAP");
      ContainsTransitive(n, "PASAP", "PAS");
    } else if Contains(n, "PASSPO") {
      assert IsPrefix("PAS", "PASSPO");
      ContainsTransitive(n, "PASSPO", "PAS");
    }
  }

  /** The text "PPT" upper-cases and strips to itself. */
  lemma PptNormalForm()
    ensures Normalize(Text("PPT")) == "PPT" && !Blank(Text("PPT"))
  {
    assert Str(Text("PPT")) == "PPT";
    assert Upper("PPT") == "PPT";
    assert Strip("PPT") == "PPT";
    StrippedTextNotBlank("PPT");
  }

  /** "PPT" is related to none of the keys before "PP". */
  lemma PptUnrelated(key: string)
    requires key == "PASAPORTE" || key == "PASSPORT" || key == "PAS"
    ensures !Related(key, "PPT")
  {
    if key != "PAS" {
      NotContainedIfLonger("PPT", key);
    } else {
      NoAdjacentPair("PPT", key);
    }
    NoAdjacentPair(key, "PPT");
  }

  /** The first related key decides the containment stage. */
  lemma FirstRelatedDecides(n: string, k: nat)
    requires k < |DocCodes| && Related(DocCodes[k].0, n)
    requires forall j :: 0 <= j < k ==> !Related(DocCodes[j].0, n)
    ensures MatchAsWritten(n) == (CodeText(DocCodes[k].1), High)
  {
    RelatedGivesHigh(n, k);
    var r := MatchAsWritten(n);
    var i :| 0 <= i < |DocCodes| && Related(DocCodes[i].0, n) && r.0 == CodeText(DocCodes[i].1)
             && forall j :: 0 <= j < i ==> !Related(DocCodes[j].0, n);
    assert i == k;
  }

  lemma PptNotKey0()
    ensures !Related(DocCodes[0].0, "PPT")
  {
    PptUnrelated("PASAPORTE");
  }

  lemma PptNotKey1()
    ensures !Related(DocCodes[1].0, "PPT")
  {
    PptUnrelated("PASSPORT");
  }

  lemma PptNotKey2()
    ensures !Related(DocCodes[2].0, "PPT")
  {
    PptUnrelated("PAS");
  }

  lemma PptKey3()
    ensures Related(DocCodes[3].0, "PPT") && CodeText(DocCodes[3].1) == "3"
  {
    assert IsPrefix("PP", "PPT");
  }

  lemma PptNoEarlierKey()
    ensures forall j :: 0 <= j < 3 ==> !Related(DocCodes[j].0, "PPT")
  {
    PptNotKey0();
    PptNotKey1();
    PptNotKey2();
  }

  lemma PptMatchAsWritten()
    ensures MatchAsWritten("PPT") == ("3", High)
  {
    PptNoEarlierKey();
    PptKey3();
    FirstRelatedDecides("PPT", 3);
  }

  lemma PptKey12()
    ensures DocCodes[12].0 == "PPT" && CodeText(DocCodes[12].1) == "52"
  {
    assert NatToString(52) == NatToString(5) + [DigitChar(2)];
  }

  lemma PptMatch()
    ensures Match("PPT") == ("52", High)
  {
    PptKey12();
    KeysRecognised(12);
  }

  /**
   * "PPT", the temporary protection permit (code 52), is read as a passport: the key "PP"
   * precedes the key "PPT" and occurs in it.  With the exact match first it gets 52.
   */
  lemma PptReadAsPassport()
    ensures GetCodeAsWritten(Text("PPT")) == ("3", High)
    ensures GetCode(Text("PPT")) == ("52", High)
  {
    PptNormalForm();
    PptMatchAsWritten();
    PptMatch();
  }
}
