/**
 * `CountryCodes` (sire_converter.py lines 90-430): the SIRE code of a country
 * written in Spanish, English, or as an ISO alpha-3 code, found by exact, partial
 * or per-word matching against a fixed table kept in declaration order.
 */
module CountryCodes {
  import opened Wrappers
  import opened Strings
  import opened Tables
  import opened Cells
  import opened Records
  import opened CountryTable

  // ---------------------------------------------------------------- normalisation

  /** The characters the resolvers keep: the regex class `[A-ZÁÉÍÓÚÑÜ\s]`. */
  predicate KeepChar(c: char) {
    IsAsciiUpper(c) || c == 'Á' || c == 'É' || c == 'Í' || c == 'Ó' || c == 'Ú' || c == 'Ñ'
    || c == 'Ü' || IsSpace(c)
  }

  /**
   * The normal form of a text (sire_converter.py lines 403-405, repeated for cities at
   * 535-537): upper-cased and stripped, every character outside `KeepChar` deleted,
   * each whitespace run collapsed to one space and the ends stripped again.
   */
  function NormalizeText(s: string): (n: string)
    ensures forall c :: c in n ==> KeepChar(c)
  {
    Squash(Filter(Strip(Upper(s)), KeepChar))
  }

  /** A normal form holds no hyphen, full stop or apostrophe. */
  lemma NoPunctuation(s: string)
    ensures '-' !in NormalizeText(s) && '.' !in NormalizeText(s) && '\'' !in NormalizeText(s)
  {
  }

  /** The normal form of a cell's `str()`. */
  function Normalize(c: Cell): string {
    NormalizeText(Str(c))
  }

  // ---------------------------------------------------------------- matching stages

  /** The partial-match test: `normalized in key or key in normalized`. */
  predicate Related(key: string, n: string) {
    Contains(key, n) || Contains(n, key)
  }

  /** A word of at least three characters that occurs inside a key. */
  predicate WordHit(w: string, key: string) {
    |w| >= 3 && Contains(key, w)
  }

  /**
   * Word `j` of `ws` is the first word that hits a key of `t`, and key `i` is the
   * first key, in table order, that it hits.
   */
  predicate FirstHitAt(t: Table, ws: seq<string>, j: nat, i: nat) {
    j < |ws| && i < |t| && WordHit(ws[j], t[i].0)
    && (forall k :: 0 <= k < i ==> !WordHit(ws[j], t[k].0))
    && (forall m, k :: 0 <= m < j && 0 <= k < |t| ==> !WordHit(ws[m], t[k].0))
  }

  /**
   * The per-word stage (lines 416-422): for the first word, in order, that has at least
   * three characters and occurs in some key, the first such key.
   */
  function WordStage(t: Table, ws: seq<string>): (r: Option<nat>)
    ensures r.Some? ==> exists j: nat :: FirstHitAt(t, ws, j, r.value)
    ensures r.None? ==> forall j, i :: 0 <= j < |ws| && 0 <= i < |t| ==> !WordHit(ws[j], t[i].0)
  {
    if ws == [] then None
    else
      var w := ws[0];
      var hit := if |w| >= 3 then FirstIndex(t, (e: (string, nat)) => Contains(e.0, w)) else None;
      if hit.Some? then
        assert FirstHitAt(t, ws, 0, hit.value);
        hit
      else
        var r := WordStage(t, ws[1..]);
        assert forall j :: 1 <= j < |ws| ==> ws[j] == ws[1..][j - 1];
        assert forall k :: 0 <= k < |t| ==> !WordHit(ws[0], t[k].0);
        if r.Some? then
          var j: nat :| FirstHitAt(t, ws[1..], j, r.value);
          assert FirstHitAt(t, ws, j + 1, r.value);
          r
        else r
  }

  /**
   * The three stages of `get_code` on a normal form `n` (lines 407-424): an exact key
   * gives HIGH, else the first key related to `n` gives MEDIUM, else the per-word stage
   * gives LOW, else `("", NONE)`.  Exact lookup takes the first equal key, which is the
   * dictionary lookup because the table's keys are distinct.
   */
  function MatchIn(t: Table, n: string): (r: (string, Confidence))
    ensures r.1 == High <==> exists i :: 0 <= i < |t| && t[i].0 == n
    ensures r.1 == High ==>
      exists i :: 0 <= i < |t| && t[i].0 == n && r.0 == CodeText(t[i].1) && forall j :: 0 <= j < i ==> t[j].0 != n
    ensures r.1 == Medium <==>
      (forall i :: 0 <= i < |t| ==> t[i].0 != n) && exists i :: 0 <= i < |t| && Related(t[i].0, n)
    ensures r.1 == Medium ==>
      exists i :: 0 <= i < |t| && Related(t[i].0, n) && r.0 == CodeText(t[i].1)
                  && forall j :: 0 <= j < i ==> !Related(t[j].0, n)
    ensures r.1 == Low <==>
      (forall i :: 0 <= i < |t| ==> !Related(t[i].0, n))
      && exists j, i :: 0 <= j < |Words(n)| && 0 <= i < |t| && WordHit(Words(n)[j], t[i].0)
    ensures r.1 == Low ==> exists j: nat, i: nat :: FirstHitAt(t, Words(n), j, i) && r.0 == CodeText(t[i].1)
    ensures r.1 == Undetected <==> r.0 == ""
    ensures AllDigits(r.0)
  {
    match FirstIndex(t, (e: (string, nat)) => e.0 == n)
    case Some(i) => (CodeText(t[i].1), High)
    case None =>
      match FirstIndex(t, (e: (string, nat)) => Related(e.0, n))
      case Some(i) => (CodeText(t[i].1), Medium)
      case None =>
        match WordStage(t, Words(n))
        case Some(i) =>
          assert exists j :: 0 <= j < |Words(n)| && WordHit(Words(n)[j], t[i].0);
          assert exists j: nat :: FirstHitAt(t, Words(n), j, i);
          (CodeText(t[i].1), Low)
        case None => ("", Undetected)
  }

  // ---------------------------------------------------------------- the resolver

  /**
   * `CountryCodes.get_code` as written (lines 393-424): the input is normalised but the
   * table keys are not, so a key holding a hyphen, a full stop or an apostrophe is never
   * matched exactly (see `PunctuatedKeysNeverExact`).
   */
  function GetCodeAsWritten(c: Cell): (r: (string, Confidence))
    ensures Blank(c) ==> r == ("", Undetected)
    ensures r.1 == High <==> !Blank(c) && exists i :: 0 <= i < |Codes| && Codes[i].0 == Normalize(c)
    ensures r.1 == Undetected <==> r.0 == ""
    ensures AllDigits(r.0)
  {
    if Blank(c) then ("", Undetected) else MatchIn(Codes, Normalize(c))
  }

  /** The table with every key brought to the normal form the input is brought to. */
  function NormalizeKeys(t: Table): (r: Table)
    ensures |r| == |t|
    ensures forall i :: 0 <= i < |t| ==> r[i].0 == NormalizeText(t[i].0) && r[i].1 == t[i].1
  {
    seq(|t|, i requires 0 <= i < |t| => (NormalizeText(t[i].0), t[i].1))
  }

  /**
   * `CountryCodes.get_code` with the table keys normalised like the input, so that every
   * key, typed as the table writes it, is found by the exact stage.
   */
  function GetCode(c: Cell): (r: (string, Confidence))
    ensures Blank(c) ==> r == ("", Undetected)
    ensures r.1 == High <==>
      !Blank(c) && exists i :: 0 <= i < |Codes| && NormalizeText(Codes[i].0) == Normalize(c)
    ensures r.1 == Undetected <==> r.0 == ""
    ensures AllDigits(r.0)
  {
    if Blank(c) then ("", Undetected)
    else
      NormalizedExact(Codes, Normalize(c));
      MatchIn(NormalizeKeys(Codes), Normalize(c))
  }

  /** Against normalised keys, the exact stage hits iff some key normalises to `n`. */
  lemma NormalizedExact(t: Table, n: string)
    ensures MatchIn(NormalizeKeys(t), n).1 == High <==> exists i :: 0 <= i < |t| && NormalizeText(t[i].0) == n
  {
    var u := NormalizeKeys(t);
    if MatchIn(u, n).1 == High {
      var i :| 0 <= i < |u| && u[i].0 == n;
      assert NormalizeText(t[i].0) == n;
    }
  }

  /** The country resolver a conversion runs: `get_code` as written or corrected. */
  function GetCodeWith(rs: Resolvers, c: Cell): (r: (string, Confidence))
    ensures Blank(c) ==> r == ("", Undetected)
    ensures r.1 == Undetected <==> r.0 == ""
    ensures AllDigits(r.0)
    ensures rs == AsWritten ==> r == GetCodeAsWritten(c)
    ensures rs == Corrected ==> r == GetCode(c)
  {
    match rs
    case AsWritten => GetCodeAsWritten(c)
    case Corrected => GetCode(c)
  }

  /** `CountryCodes.is_colombia` (lines 427-430), on the resolver `rs` chooses. */
  predicate IsColombia(rs: Resolvers, c: Cell) {
    GetCodeWith(rs, c).0 == "169"
  }

  /**
   * No integer cell is Colombia, as written or corrected: zero is falsy, so `get_code`
   * gives "", and any other integer resolves to the United States, "249".
   */
  lemma IntegerNeverColombia(rs: Resolvers, n: int)
    ensures !IsColombia(rs, Int(n))
  {
    if n != 0 {
      IntegerIsACountryAsWritten(n);
      IntegerIsACountry(n);
    }
    NeitherColombia(rs, Int(n));
  }

  /** A cell neither resolver reads as "169" is not Colombia, whichever runs. */
  lemma NeitherColombia(rs: Resolvers, c: Cell)
    requires GetCodeAsWritten(c).0 != "169" && GetCode(c).0 != "169"
    ensures !IsColombia(rs, c)
  {
  }

  // ---------------------------------------------------------------- properties

  /** Every character the normaliser keeps is already upper case. */
  lemma KeepCharIsUpper(c: char)
    requires KeepChar(c)
    ensures UpperChar(c) == [c]
  {
  }

  /** The normal form is a fixed point: normalising it again changes nothing. */
  lemma NormalizeTextIdempotent(s: string)
    ensures NormalizeText(NormalizeText(s)) == NormalizeText(s)
  {
    var n := NormalizeText(s);
    NormalFormPassesThrough(s);
    assert NormalizeText(n) == Squash(n);
    SquashIdempotent(Filter(Strip(Upper(s)), KeepChar));
  }

  /** Upper-casing, stripping and filtering leave a normal form as it is. */
  lemma NormalFormPassesThrough(s: string)
    ensures var n := NormalizeText(s); Filter(Strip(Upper(n)), KeepChar) == n
  {
    var n := NormalizeText(s);
    NormalFormUpper(n);
    NormalFormStripped(s);
    FilterAll(n, KeepChar);
  }

  /** Text made of kept characters is its own upper case. */
  lemma NormalFormUpper(n: string)
    requires forall c :: c in n ==> KeepChar(c)
    ensures Upper(n) == n
  {
    forall i | 0 <= i < |n|
      ensures UpperChar(n[i]) == [n[i]]
    {
      assert n[i] in n;
      KeepCharIsUpper(n[i]);
    }
    UpperIdentity(n);
  }

  /**
   * Resolving a country's normal form gives the same answer as resolving the country,
   * unless the normal form is empty: then the text itself is matched against the
   * table (see `EmptyNormalFormIsAMatch`) while its normal form is blank.
   */
  lemma ResolveNormalForm(c: Cell)
    requires !Blank(c) && Normalize(c) != ""
    ensures GetCode(Text(Normalize(c))) == GetCode(c)
  {
    var n := Normalize(c);
    NormalFormStripped(Str(c));
    StrippedTextNotBlank(n);
    NormalizeTextIdempotent(Str(c));
    assert Normalize(Text(n)) == n;
    SameNormalFormSameCode(Text(n), c);
  }

  /** Two non-blank texts with the same normal form resolve alike. */
  lemma SameNormalFormSameCode(a: Cell, b: Cell)
    requires !Blank(a) && !Blank(b) && Normalize(a) == Normalize(b)
    ensures GetCode(a) == GetCode(b)
  {
  }

  /** A normal form has no surrounding whitespace. */
  lemma NormalFormStripped(s: string)
    ensures Strip(NormalizeText(s)) == NormalizeText(s)
  {
    var ws := Words(Filter(Strip(Upper(s)), KeepChar));
    JoinWordsEnds(ws);
    var n := NormalizeText(s);
    assert n == Join(" ", ws);
    StripIdentity(n);
  }

  /** The table starts with the United States, code 249. */
  lemma FirstEntry()
    ensures Codes[0] == ("ESTADOS UNIDOS", 249) && CodeText(Codes[0].1) == "249"
  {
    assert NatToString(24) == "24";
  }

  /**
   * A non-blank text whose normal form is empty (digits or punctuation only, such as
   * "123") is still attributed to a country: no key is empty, and the empty string
   * occurs in every key, so it gets the first key's code, "249" (the United States),
   * at MEDIUM.
   */
  lemma EmptyNormalFormIsAMatchAsWritten(c: Cell)
    requires !Blank(c) && Normalize(c) == ""
    ensures GetCodeAsWritten(c) == ("249", Medium)
  {
    EmptyTextIsFirstKey();
  }

  /** The same holds with normalised keys: no key normalises to the empty string. */
  lemma EmptyNormalFormIsAMatch(c: Cell)
    requires !Blank(c) && Normalize(c) == ""
    ensures GetCode(c) == ("249", Medium)
  {
    EmptyTextIsFirstKey();
  }

  /** The country table resolves the empty text to its first key, "249", at MEDIUM. */
  lemma EmptyTextIsFirstKey()
    ensures MatchIn(Codes, "") == ("249", Medium)
    ensures MatchIn(NormalizeKeys(Codes), "") == ("249", Medium)
  {
    FirstEntry();
    CapitalisedKeys();
    EmptyTextMatchesFirstKey(Codes);
  }

  /** Normalising keys that start with a capital keeps that capital in front. */
  lemma NormalizedKeysCapitalised(t: Table)
    requires KeysCapitalised(t)
    ensures KeysCapitalised(NormalizeKeys(t))
  {
    var u := NormalizeKeys(t);
    forall i | 0 <= i < |u|
      ensures u[i].0 != "" && IsAsciiUpper(u[i].0[0])
    {
      LeadCapitalNormalForm(t[i].0);
    }
  }

  /**
   * The empty text equals no key of a table whose keys start with a capital, as written
   * or normalised, but is related to every key, so the first key decides, at MEDIUM.
   */
  lemma EmptyTextMatchesFirstKey(t: Table)
    requires |t| > 0 && KeysCapitalised(t)
    ensures MatchIn(t, "") == (CodeText(t[0].1), Medium)
    ensures MatchIn(NormalizeKeys(t), "") == (CodeText(t[0].1), Medium)
  {
    EmptyTextRelated(t);
    NormalizedKeysCapitalised(t);
    EmptyTextRelated(NormalizeKeys(t));
  }

  lemma EmptyTextRelated(t: Table)
    requires |t| > 0 && KeysCapitalised(t)
    ensures MatchIn(t, "") == (CodeText(t[0].1), Medium)
  {
    assert IsPrefix("", t[0].0);
    assert Related(t[0].0, "");
  }

  /** A word of ASCII capitals is its own normal form. */
  lemma NormalFormOfWord(w: string)
    requires w != "" && forall i :: 0 <= i < |w| ==> IsAsciiUpper(w[i])
    ensures NormalizeText(w) == w
  {
    assert Upper(w) == w by {
      forall i | 0 <= i < |w|
        ensures UpperChar(w[i]) == [w[i]]
      {
        KeepCharIsUpper(w[i]);
      }
      UpperIdentity(w);
    }
    assert Strip(w) == w by {
      StripIdentity(w);
    }
    assert Filter(w, KeepChar) == w by {
      FilterAll(w, KeepChar);
    }
    assert Words(w) == [w] by {
      WordsOfWordThen(w, "");
      assert w + "" == w;
      assert Words("") == [];
    }
  }

  /**
   * A text that starts with an ASCII capital keeps that capital at the head of its
   * normal form, which is therefore never empty.
   */
  lemma LeadCapitalNormalForm(k: string)
    requires k != "" && IsAsciiUpper(k[0])
    ensures NormalizeText(k) != "" && NormalizeText(k)[0] == k[0]
  {
    var u := Upper(k);
    KeepCharIsUpper(k[0]);
    assert u[0] == k[0];
    StripLead(u);
    var f := Filter(Strip(u), KeepChar);
    assert f[0] == k[0];
    var n := LeadingNonSpace(f);
    assert Words(f) == [f[..n]] + Words(f[n..]);
    assert f[..n][0] == k[0];
  }

  /** A text that upper-cases to itself and holds no kept character normalises to "". */
  lemma NothingKept(s: string)
    requires Upper(s) == s
    requires forall c :: c in s ==> !KeepChar(c)
    ensures NormalizeText(s) == ""
  {
    var t := Strip(s);
    StripChars(s);
    forall i | 0 <= i < |t|
      ensures !KeepChar(t[i])
    {
      assert t[i] in s;
    }
    FilterNone(t, KeepChar);
    assert Words("") == [];
  }

  /** The normal form of a printed integer is empty: digits and the minus sign are dropped. */
  lemma NumeralNormalFormEmpty(n: int)
    ensures NormalizeText(IntToString(n)) == ""
  {
    UpperNumeral(n);
    NumeralChars(n);
    NothingKept(IntToString(n));
  }

  /**
   * Every non-zero integer cell is attributed to the United States, as written and with
   * normalised keys: its normal form is empty, which `EmptyNormalFormIsAMatch` resolves
   * to the first key.
   */
  lemma IntegerIsACountryAsWritten(n: int)
    requires n != 0
    ensures GetCodeAsWritten(Int(n)) == ("249", Medium)
  {
    NonZeroPresentEmpty(n);
    EmptyNormalFormIsAMatchAsWritten(Int(n));
  }

  /** The same holds with normalised keys. */
  lemma IntegerIsACountry(n: int)
    requires n != 0
    ensures GetCode(Int(n)) == ("249", Medium)
  {
    NonZeroPresentEmpty(n);
    EmptyNormalFormIsAMatch(Int(n));
  }

  /** A non-zero integer cell is not blank and its normal form is empty. */
  lemma NonZeroPresentEmpty(n: int)
    requires n != 0
    ensures !Blank(Int(n)) && Normalize(Int(n)) == ""
  {
    NumeralNormalFormEmpty(n);
  }

  /**
   * Keys written with a hyphen, a full stop or an apostrophe ("GUINEA-BISSAU",
   * "E.E.U.U.", "COTE D'IVOIRE") can never be matched exactly: the normaliser deletes
   * those characters from every input.
   */
  lemma PunctuatedKeysNeverExact(key: string, c: Cell)
    requires '-' in key || '.' in key || '\'' in key
    ensures key != Normalize(c)
  {
    NoPunctuation(Str(c));
  }

  /** "GUINEA-BISSAU" is entry 527 of the table. */
  lemma GuineaBissauEntry()
    ensures Codes[527] == ("GUINEA-BISSAU", 334)
  {
  }

  /**
   * As written, the entry "GUINEA-BISSAU" is dead: no input's normal form equals it, so
   * the exact stage never selects it, not even for the text "GUINEA-BISSAU" itself.
   */
  lemma GuineaBissauAsWritten()
    ensures forall c: Cell :: Normalize(c) != Codes[527].0
  {
    GuineaBissauEntry();
    forall c: Cell
      ensures Normalize(c) != Codes[527].0
    {
      PunctuatedKeysNeverExact(Codes[527].0, c);
    }
  }

  /**
   * With normalised keys, a table key typed as the table writes it is found by the exact
   * stage, as long as it is not blank.  The code is that of the first key with the same
   * normal form, so the key's own code when no earlier key shares its normal form.
   */
  lemma KeyTextRecognised(k: string, i: nat)
    requires i < |Codes| && Codes[i].0 == k
    requires Strip(k) == k && k != ""
    ensures GetCode(Text(k)).1 == High
    ensures exists j :: 0 <= j <= i && NormalizeText(Codes[j].0) == NormalizeText(k) && GetCode(Text(k)).0 == CodeText(Codes[j].1)
    ensures (forall j :: 0 <= j < i ==> NormalizeText(Codes[j].0) != NormalizeText(k)) ==>
      GetCode(Text(k)).0 == CodeText(Codes[i].1)
  {
    StrippedTextNotBlank(k);
    assert Normalize(Text(k)) == NormalizeText(k);
    assert GetCode(Text(k)) == MatchIn(NormalizeKeys(Codes), NormalizeText(k));
    FirstNormalKey(Codes, NormalizeText(k), i);
  }

  /** The exact stage on normalised keys answers with the first key whose normal form is `n`. */
  lemma FirstNormalKey(t: Table, n: string, i: nat)
    requires i < |t| && NormalizeText(t[i].0) == n
    ensures MatchIn(NormalizeKeys(t), n).1 == High
    ensures exists j :: 0 <= j <= i && NormalizeText(t[j].0) == n && MatchIn(NormalizeKeys(t), n).0 == CodeText(t[j].1)
    ensures (forall j :: 0 <= j < i ==> NormalizeText(t[j].0) != n) ==> MatchIn(NormalizeKeys(t), n).0 == CodeText(t[i].1)
  {
    var u := NormalizeKeys(t);
    var j := FirstExactKey(u, n, i);
  }

  /** The exact stage answers with the code of the first key equal to `n`, no later than any such key `i`. */
  lemma FirstExactKey(t: Table, n: string, i: nat) returns (j: nat)
    requires i < |t| && t[i].0 == n
    ensures j <= i && t[j].0 == n && MatchIn(t, n) == (CodeText(t[j].1), High)
    ensures forall l :: 0 <= l < j ==> t[l].0 != n
  {
    j :| 0 <= j < |t| && t[j].0 == n && MatchIn(t, n).0 == CodeText(t[j].1) && forall l :: 0 <= l < j ==> t[l].0 != n;
  }

  /** A present cell whose normal form is that of key `i` is resolved at HIGH. */
  lemma KeyedIsHigh(c: Cell, i: nat)
    requires i < |Codes| && !Blank(c) && NormalizeText(Codes[i].0) == Normalize(c)
    ensures GetCode(c).1 == High
  {
  }

  /** With normalised keys the text "GUINEA-BISSAU" is found by the exact stage. */
  lemma GuineaBissauCorrected()
    ensures GetCode(Text("GUINEA-BISSAU")).1 == High
  {
    GuineaBissauEntry();
    GuineaBissauStripped();
    KeyTextRecognised("GUINEA-BISSAU", 527);
  }

  /** "GUINEA-BISSAU" has no surrounding whitespace. */
  lemma GuineaBissauStripped()
    ensures Strip("GUINEA-BISSAU") == "GUINEA-BISSAU"
  {
    var k := "GUINEA-BISSAU";
    assert k[0] == 'G' && k[|k| - 1] == 'U';
    StripIdentity(k);
  }

  /** Every key of `t` starts with an ASCII capital letter, so none is empty. */
  predicate KeysCapitalised(t: Table) {
    forall i :: 0 <= i < |t| ==> t[i].0 != "" && IsAsciiUpper(t[i].0[0])
  }

  /** Joining two tables whose keys start with a capital gives another one. */
  lemma KeysCapitalisedAppend(a: Table, b: Table)
    requires KeysCapitalised(a) && KeysCapitalised(b)
    ensures KeysCapitalised(a + b)
  {
  }

  /** Every key of the country table starts with an ASCII capital, checked region by region. */
  lemma CapitalisedKeys()
    ensures KeysCapitalised(Codes)
  {
    AmericasKeysCapitalised();
    NorthEuropeKeysCapitalised();
    SouthEuropeKeysCapitalised();
    EastAsiaKeysCapitalised();
    WestAsiaKeysCapitalised();
    NorthAfricaKeysCapitalised();
    SouthAfricaKeysCapitalised();
    ElsewhereKeysCapitalised();
    CaribbeanKeysCapitalised();
    WesternEuropeKeysCapitalised();
    OceaniaKeysCapitalised();
    KeysCapitalisedAppend(NorthAmerica, CentralAmerica);
    KeysCapitalisedAppend(NorthAmerica + CentralAmerica, Caribbean);
    KeysCapitalisedAppend(NorthAmerica + CentralAmerica + Caribbean, SouthAmerica);
    KeysCapitalisedAppend(NorthAmerica + CentralAmerica + Caribbean + SouthAmerica, WesternEurope);
    KeysCapitalisedAppend(NorthAmerica + CentralAmerica + Caribbean + SouthAmerica + WesternEurope, NordicEurope);
    KeysCapitalisedAppend(NorthAmerica + CentralAmerica + Caribbean + SouthAmerica + WesternEurope + NordicEurope, EasternEurope);
    KeysCapitalisedAppend(NorthAmerica + CentralAmerica + Caribbean + SouthAmerica + WesternEurope + NordicEurope + EasternEurope, Balkans);
    KeysCapitalisedAppend(NorthAmerica + CentralAmerica + Caribbean + SouthAmerica + WesternEurope + NordicEurope + EasternEurope + Balkans, BalticEurope);
    KeysCapitalisedAppend(NorthAmerica + CentralAmerica + Caribbean + SouthAmerica + WesternEurope + NordicEurope + EasternEurope + Balkans + BalticEurope, Caucasus);
    KeysCapitalisedAppend(NorthAmerica + CentralAmerica + Caribbean + SouthAmerica + WesternEurope + NordicEurope + EasternEurope + Balkans + BalticEurope + Caucasus, EastAsia);
    KeysCapitalisedAppend(NorthAmerica + CentralAmerica + Caribbean + SouthAmerica + WesternEurope + NordicEurope + EasternEurope + Balkans + BalticEurope + Caucasus + EastAsia, SoutheastAsia);
    KeysCapitalisedAppend(NorthAmerica + CentralAmerica + Caribbean + SouthAmerica + WesternEurope + NordicEurope + EasternEurope + Balkans + BalticEurope + Caucasus + EastAsia + SoutheastAsia, SouthAsia);
    KeysCapitalisedAppend(NorthAmerica + CentralAmerica + Caribbean + SouthAmerica + WesternEurope + NordicEurope + EasternEurope + Balkans + BalticEurope + Caucasus + EastAsia + SoutheastAsia + SouthAsia, CentralAsia);
    KeysCapitalisedAppend(NorthAmerica + CentralAmerica + Caribbean + SouthAmerica + WesternEurope + NordicEurope + EasternEurope + Balkans + BalticEurope + Caucasus + EastAsia + SoutheastAsia + SouthAsia + CentralAsia, MiddleEast);
    KeysCapitalisedAppend(NorthAmerica + CentralAmerica + Caribbean + SouthAmerica + WesternEurope + NordicEurope + EasternEurope + Balkans + BalticEurope + Caucasus + EastAsia + SoutheastAsia + SouthAsia + CentralAsia + MiddleEast, Oceania);
    KeysCapitalisedAppend(NorthAmerica + CentralAmerica + Caribbean + SouthAmerica + WesternEurope + NordicEurope + EasternEurope + Balkans + BalticEurope + Caucasus + EastAsia + SoutheastAsia + SouthAsia + CentralAsia + MiddleEast + Oceania, NorthAfrica);
    KeysCapitalisedAppend(NorthAmerica + CentralAmerica + Caribbean + SouthAmerica + WesternEurope + NordicEurope + EasternEurope + Balkans + BalticEurope + Caucasus + EastAsia + SoutheastAsia + SouthAsia + CentralAsia + MiddleEast + Oceania + NorthAfrica, WestAfrica);
    KeysCapitalisedAppend(NorthAmerica + CentralAmerica + Caribbean + SouthAmerica + WesternEurope + NordicEurope + EasternEurope + Balkans + BalticEurope + Caucasus + EastAsia + SoutheastAsia + SouthAsia + CentralAsia + MiddleEast + Oceania + NorthAfrica + WestAfrica, CentralAfrica);
    KeysCapitalisedAppend(NorthAmerica + CentralAmerica + Caribbean + SouthAmerica + WesternEurope + NordicEurope + EasternEurope + Balkans + BalticEurope + Caucasus + EastAsia + SoutheastAsia + SouthAsia + CentralAsia + MiddleEast + Oceania + NorthAfrica + WestAfrica + CentralAfrica, EastAfrica);
    KeysCapitalisedAppend(NorthAmerica + CentralAmerica + Caribbean + SouthAmerica + WesternEurope + NordicEurope + EasternEurope + Balkans + BalticEurope + Caucasus + EastAsia + SoutheastAsia + SouthAsia + CentralAsia + MiddleEast + Oceania + NorthAfrica + WestAfrica + CentralAfrica + EastAfrica, SouthernAfrica);
    KeysCapitalisedAppend(NorthAmerica + CentralAmerica + Caribbean + SouthAmerica + WesternEurope + NordicEurope + EasternEurope + Balkans + BalticEurope + Caucasus + EastAsia + SoutheastAsia + SouthAsia + CentralAsia + MiddleEast + Oceania + NorthAfrica + WestAfrica + CentralAfrica + EastAfrica + SouthernAfrica, Territories);
    KeysCapitalisedAppend(NorthAmerica + CentralAmerica + Caribbean + SouthAmerica + WesternEurope + NordicEurope + EasternEurope + Balkans + BalticEurope + Caucasus + EastAsia + SoutheastAsia + SouthAsia + CentralAsia + MiddleEast + Oceania + NorthAfrica + WestAfrica + CentralAfrica + EastAfrica + SouthernAfrica + Territories, International);
  }

  lemma AmericasKeysCapitalised()
    ensures KeysCapitalised(NorthAmerica) && KeysCapitalised(CentralAmerica) && KeysCapitalised(SouthAmerica)
  {
    assert KeysCapitalised(NorthAmerica);
    assert KeysCapitalised(CentralAmerica);
    assert KeysCapitalised(SouthAmerica);
  }

  lemma NorthEuropeKeysCapitalised()
    ensures KeysCapitalised(NordicEurope) && KeysCapitalised(EasternEurope)
  {
    assert KeysCapitalised(NordicEurope);
    assert KeysCapitalised(EasternEurope);
  }

  lemma SouthEuropeKeysCapitalised()
    ensures KeysCapitalised(Balkans) && KeysCapitalised(BalticEurope) && KeysCapitalised(Caucasus)
  {
    assert KeysCapitalised(Balkans);
    assert KeysCapitalised(BalticEurope);
    assert KeysCapitalised(Caucasus);
  }

  lemma EastAsiaKeysCapitalised()
    ensures KeysCapitalised(EastAsia) && KeysCapitalised(SoutheastAsia)
  {
    assert KeysCapitalised(EastAsia);
    assert KeysCapitalised(SoutheastAsia);
  }

  lemma WestAsiaKeysCapitalised()
    ensures KeysCapitalised(SouthAsia) && KeysCapitalised(CentralAsia) && KeysCapitalised(MiddleEast)
  {
    assert KeysCapitalised(SouthAsia);
    assert KeysCapitalised(CentralAsia);
    assert KeysCapitalised(MiddleEast);
  }

  lemma NorthAfricaKeysCapitalised()
    ensures KeysCapitalised(NorthAfrica) && KeysCapitalised(WestAfrica)
  {
    assert KeysCapitalised(NorthAfrica);
    assert KeysCapitalised(WestAfrica);
  }

  lemma SouthAfricaKeysCapitalised()
    ensures KeysCapitalised(CentralAfrica) && KeysCapitalised(EastAfrica) && KeysCapitalised(SouthernAfrica)
  {
    assert KeysCapitalised(CentralAfrica);
    assert KeysCapitalised(EastAfrica);
    assert KeysCapitalised(SouthernAfrica);
  }

  lemma ElsewhereKeysCapitalised()
    ensures KeysCapitalised(Territories) && KeysCapitalised(International)
  {
    assert KeysCapitalised(Territories);
    assert KeysCapitalised(International);
  }

  lemma CaribbeanKeysCapitalised()
    ensures KeysCapitalised(Caribbean)
  {
    assert KeysCapitalised(CaribbeanFirst);
    assert KeysCapitalised(CaribbeanSecond);
    KeysCapitalisedAppend(CaribbeanFirst, CaribbeanSecond);
  }

  lemma WesternEuropeKeysCapitalised()
    ensures KeysCapitalised(WesternEurope)
  {
    assert KeysCapitalised(WesternEuropeFirst);
    assert KeysCapitalised(WesternEuropeSecond);
    KeysCapitalisedAppend(WesternEuropeFirst, WesternEuropeSecond);
  }

  lemma OceaniaKeysCapitalised()
    ensures KeysCapitalised(Oceania)
  {
    assert KeysCapitalised(OceaniaFirst);
    assert KeysCapitalised(OceaniaSecond);
    KeysCapitalisedAppend(OceaniaFirst, OceaniaSecond);
  }
}
