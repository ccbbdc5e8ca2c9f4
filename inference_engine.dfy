/**
 * `InferenceEngine` (sire_converter.py:967-1015): a country code derived from
 * another country field, and given name and surname guessed from an e-mail.
 */
module InferenceEngine {
  import opened Wrappers
  import opened Strings
  import opened Cells
  import opened Records
  import CountryCodes

  /**
   * `infer_nationality_from_origin` (lines 971-978); `infer_origin_from_nationality`
   * (lines 981-987) has the same body.  The code is the country resolver's (`rs`
   * chooses it as written or corrected); the confidence is one step lower: an exact
   * key gives MEDIUM, a containment or token hit gives LOW, and no code gives NONE.
   */
  function InferCountryCode(rs: Resolvers, c: Cell): (r: (string, Confidence))
    ensures r.0 == CountryCodes.GetCodeWith(rs, c).0
    ensures r.1 != High
    ensures r.1 == Undetected <==> r.0 == ""
    ensures r.1 == Medium <==> CountryCodes.GetCodeWith(rs, c).1 == High
    ensures r.1 == Low <==> CountryCodes.GetCodeWith(rs, c).1 in {Medium, Low}
    ensures Blank(c) ==> r == ("", Undetected)
    ensures AllDigits(r.0)
  {
    var (code, conf) := CountryCodes.GetCodeWith(rs, c);
    if code != "" then (code, Downgrade(conf)) else ("", Undetected)
  }

  // ---------------------------------------------------------------- names from e-mail

  /** The separators of the three patterns at lines 1002-1004, in order. */
  const Separators: seq<char> := ['.', '_', '-']

  /** `[a-z]+`. */
  predicate Letters(s: string) {
    s != [] && AllAsciiLower(s)
  }

  /**
   * `re.match(r'^([a-z]+)<x>([a-z]+)$', local)` with groups `g1`, `g2`: `$` also
   * matches just before a final newline.
   */
  predicate SeparatorPattern(local: string, x: char, g1: string, g2: string) {
    Letters(g1) && Letters(g2) && (local == g1 + [x] + g2 || local == g1 + [x] + g2 + "\n")
  }

  /**
   * `re.match(r'^([a-z]+)([A-Z][a-z]+)$', local)` (line 1005) with groups `g1`, `g2`.
   */
  predicate CamelPattern(local: string, g1: string, g2: string) {
    Letters(g1) && |g2| >= 2 && IsAsciiUpper(g2[0]) && AllAsciiLower(g2[1..])
    && (local == g1 + g2 || local == g1 + g2 + "\n")
  }

  /** Length of the longest prefix of lower-case ASCII letters. */
  function LeadingLower(s: string): (n: nat)
    ensures n <= |s|
    ensures AllAsciiLower(s[..n])
    ensures n < |s| ==> !IsAsciiLower(s[n])
  {
    if s == [] || !IsAsciiLower(s[0]) then 0
    else
      var n := 1 + LeadingLower(s[1..]);
      assert s[..n] == [s[0]] + s[1..][..n - 1];
      n
  }

  /** `s` without one final newline, the part `$` leaves to `[a-z]+`. */
  function BeforeEnd(s: string): string {
    if s != [] && s[|s| - 1] == '\n' then s[..|s| - 1] else s
  }

  /** The regex engine on one separator pattern: the groups when it matches. */
  function MatchSeparator(local: string, x: char): (r: Option<(string, string)>)
    requires !IsAsciiLower(x) && x != '\n'
    ensures r.Some? ==> SeparatorPattern(local, x, r.value.0, r.value.1)
    ensures r.None? ==> forall g1, g2 :: !SeparatorPattern(local, x, g1, g2)
  {
    var i := LeadingLower(local);
    if 0 < i < |local| && local[i] == x && Letters(BeforeEnd(local[i + 1..])) then
      var g2 := BeforeEnd(local[i + 1..]);
      assert local == local[..i] + [x] + local[i + 1..];
      Some((local[..i], g2))
    else
      SeparatorGroups(local, x);
      None
  }

  /** Any match of a separator pattern has the leading letters as its first group. */
  lemma SeparatorGroups(local: string, x: char)
    requires !IsAsciiLower(x) && x != '\n'
    ensures forall g1, g2 :: SeparatorPattern(local, x, g1, g2) ==>
      var i := LeadingLower(local);
      i == |g1| && 0 < i < |local| && local[i] == x && BeforeEnd(local[i + 1..]) == g2
  {
    forall g1, g2 | SeparatorPattern(local, x, g1, g2)
      ensures var i := LeadingLower(local);
        i == |g1| && 0 < i < |local| && local[i] == x && BeforeEnd(local[i + 1..]) == g2
    {
      var i := LeadingLower(local);
      assert local[..|g1|] == g1;
      assert local[|g1|] == x;
      LeadingLowerOf(local, |g1|);
      if local == g1 + [x] + g2 {
        assert local[i + 1..] == g2;
        assert BeforeEnd(g2) == g2;
      } else {
        assert local[i + 1..] == g2 + "\n";
        assert (g2 + "\n")[..|g2|] == g2;
      }
    }
  }

  /** A prefix of letters that stops at a non-letter is the longest one. */
  lemma {:induction false} LeadingLowerOf(s: string, k: nat)
    requires k < |s| && AllAsciiLower(s[..k]) && !IsAsciiLower(s[k])
    ensures LeadingLower(s) == k
  {
    if k > 0 {
      assert s[0] == s[..k][0];
      assert s[1..][..k - 1] == s[..k][1..];
      LeadingLowerOf(s[1..], k - 1);
    }
  }

  /** The text before the first `@`, lower-cased (line 998). */
  function LocalPart(c: Cell): string {
    Lower(SplitOn(Str(c), '@')[0])
  }

  /** The first separator pattern, in the order of `Separators`, that matches. */
  function FirstSeparatorMatch(local: string, k: nat): (r: Option<(string, string)>)
    requires k <= |Separators|
    ensures r.Some? ==> exists j :: k <= j < |Separators| && SeparatorPattern(local, Separators[j], r.value.0, r.value.1)
    ensures r.None? ==> forall j, g1, g2 :: k <= j < |Separators| ==> !SeparatorPattern(local, Separators[j], g1, g2)
    decreases |Separators| - k
  {
    if k == |Separators| then None
    else
      match MatchSeparator(local, Separators[k])
      case Some(g) => Some(g)
      case None => FirstSeparatorMatch(local, k + 1)
  }

  /**
   * `infer_names_from_email` (lines 990-1015): with no `@` the result is
   * ("", "", NONE); otherwise the local part is split by the first of the
   * patterns that matches, its two groups upper-cased at LOW confidence.
   */
  function InferNamesFromEmail(c: Cell): (r: (string, string, Confidence))
    ensures r.2 == Low || r.2 == Undetected
    ensures !Truthy(c) || '@' !in Str(c) ==> r == ("", "", Undetected)
    ensures r.2 == Low <==>
      Truthy(c) && '@' in Str(c)
      && exists j, g1, g2 :: 0 <= j < |Separators| && SeparatorPattern(LocalPart(c), Separators[j], g1, g2)
    ensures r.2 == Low ==>
      exists j, g1, g2 :: 0 <= j < |Separators| && SeparatorPattern(LocalPart(c), Separators[j], g1, g2)
        && r.0 == Upper(g1) && r.1 == Upper(g2)
    ensures r.2 == Undetected ==> r.0 == "" && r.1 == ""
  {
    if !Truthy(c) || '@' !in Str(c) then ("", "", Undetected)
    else
      var local := LocalPart(c);
      match FirstSeparatorMatch(local, 0)
      case Some((g1, g2)) => (Upper(g1), Upper(g2), Low)
      case None =>
        match MatchCamel(local)
        case Some((g1, g2)) => (Upper(g1), Upper(g2), Low)
        case None => ("", "", Undetected)
  }

  /** The regex engine on the camel-case pattern. */
  function MatchCamel(local: string): (r: Option<(string, string)>)
    ensures r.Some? ==> CamelPattern(local, r.value.0, r.value.1)
  {
    var i := LeadingLower(local);
    var g2 := BeforeEnd(local[i..]);
    if 0 < i && |g2| >= 2 && IsAsciiUpper(g2[0]) && AllAsciiLower(g2[1..]) then
      assert local == local[..i] + local[i..];
      Some((local[..i], g2))
    else None
  }

  // ---------------------------------------------------------------- properties

  /**
   * The camel-case pattern can never match (line 1005): the local part is
   * lower-cased first (line 998), so no character after the first group is a capital.
   */
  lemma CamelUnreachable(c: Cell)
    ensures forall i :: 0 <= i < |LocalPart(c)| ==> !IsAsciiUpper(LocalPart(c)[i])
    ensures forall g1, g2 :: !CamelPattern(LocalPart(c), g1, g2)
  {
    var head := SplitOn(Str(c), '@')[0];
    var local := LocalPart(c);
    forall i | 0 <= i < |local|
      ensures !IsAsciiUpper(local[i])
    {
      assert local[i] == LowerChar(head[i]);
    }
    forall g1, g2 | Letters(g1) && g2 != [] && (local == g1 + g2 || local == g1 + g2 + "\n")
      ensures !IsAsciiUpper(g2[0])
    {
      assert local[|g1|] == g2[0];
    }
  }

  /** The names come back as upper-case ASCII letters. */
  lemma {:induction false} UpperLetters(g: string)
    requires Letters(g)
    ensures |Upper(g)| == |g| && forall i :: 0 <= i < |g| ==> IsAsciiUpper(Upper(g)[i])
  {
    if |g| > 1 {
      UpperLetters(g[1..]);
    }
  }

  /** `given.surname@domain` gives the two names upper-cased, at LOW confidence. */
  lemma DottedAddress(given: string, surname: string, domain: string)
    requires Letters(given) && Letters(surname)
    ensures InferNamesFromEmail(Text(given + "." + surname + "@" + domain)) == (Upper(given), Upper(surname), Low)
  {
    var local := given + "." + surname;
    DottedMatch(given, surname);
    LocalOfAddress(local, domain);
  }

  /** The local part of `local@domain` when `local` is lower case. */
  lemma LocalOfAddress(local: string, domain: string)
    requires forall i :: 0 <= i < |local| ==> local[i] == '.' || IsAsciiLower(local[i])
    ensures var c := Text(local + "@" + domain);
      Truthy(c) && '@' in Str(c) && LocalPart(c) == local
  {
    var c := Text(local + "@" + domain);
    assert '@' !in local;
    SplitOnSepThen(local, '@', domain);
    assert Str(c) == local + ['@'] + domain;
    assert Str(c)[|local|] == '@';
    forall i | 0 <= i < |local|
      ensures LowerChar(local[i]) == local[i]
    {
    }
  }

  /** The dot pattern splits `given.surname` into its two names. */
  lemma DottedMatch(given: string, surname: string)
    requires Letters(given) && Letters(surname)
    ensures FirstSeparatorMatch(given + "." + surname, 0) == Some((given, surname))
  {
    var local := given + "." + surname;
    assert SeparatorPattern(local, '.', given, surname);
    SeparatorGroups(local, '.');
    var m := MatchSeparator(local, '.');
    assert m.Some?;
    assert SeparatorPattern(local, '.', m.value.0, m.value.1);
    assert |m.value.0| == |given|;
    assert m.value.0 == local[..|given|] == given;
    assert m.value.1 == surname;
    assert FirstSeparatorMatch(local, 0) == m;
  }

  /** `"john.smith@mail.com"` names John Smith. */
  lemma JohnSmith()
    ensures InferNamesFromEmail(Text("john.smith@mail.com")) == ("JOHN", "SMITH", Low)
  {
    assert "john" + "." + "smith" + "@" + "mail.com" == "john.smith@mail.com";
    UpperJohnSmith();
    DottedAddress("john", "smith", "mail.com");
  }

  lemma UpperJohnSmith()
    ensures Upper("john") == "JOHN" && Upper("smith") == "SMITH"
  {
  }
}
