/**
 * `TextNormalizer` (sire_converter.py lines 921-964): cleaning a given name or
 * surname, and splitting a full name into first surname, second surname and
 * given names.
 */
module TextNormalizer {
  import opened Strings
  import opened Cells

  /** The regex class `[a-zA-ZÀ-ÿ\s\-\']`: the characters a name keeps (line 933). */
  predicate NameChar(c: char) {
    IsAsciiLetter(c) || ('À' <= c <= 'ÿ') || IsSpace(c) || c == '-' || c == '\''
  }

  /** The words of a name after the character filter, before upper-casing. */
  function NameWords(c: Cell): (ws: seq<string>)
    ensures forall i :: 0 <= i < |ws| ==> IsWord(ws[i])
  {
    Words(Filter(Str(c), NameChar))
  }

  /** `[w.upper() for w in ws]`. */
  function UpperAll(ws: seq<string>): (vs: seq<string>)
    ensures |vs| == |ws|
    ensures forall i :: 0 <= i < |ws| ==> vs[i] == Upper(ws[i])
  {
    seq(|ws|, i requires 0 <= i < |ws| => Upper(ws[i]))
  }

  /**
   * `normalize_name` (lines 925-936): empty for a blank value; otherwise the
   * characters outside `NameChar` are deleted, whitespace runs collapse to one
   * space, the ends are stripped and the text is upper-cased.  The result is
   * the upper-cased words of the filtered text, separated by single spaces.
   */
  function NormalizeName(c: Cell): (r: string)
    ensures Blank(c) ==> r == ""
    ensures !Blank(c) ==> r == Join(" ", UpperAll(NameWords(c)))
    ensures forall i :: 0 <= i < |r| ==> !IsDigit(r[i])
  {
    if Blank(c) then ""
    else
      var r := Upper(Squash(Filter(Str(c), NameChar)));
      UpperJoin(NameWords(c));
      assert r == Join(" ", UpperAll(NameWords(c)));
      NameHasNoDigit(Str(c));
      r
  }

  /**
   * The split of lines 951-964 on the tokens `parts`: one token is the first
   * surname; two are given name and first surname; three are two given names
   * and the first surname; from four on the last two tokens are the two
   * surnames.  The result is (first surname, second surname, given names), and
   * reading it back as given names, first surname, second surname gives the
   * tokens again.
   */
  function SplitTokens(parts: seq<string>): (r: (string, string, string))
    requires forall i :: 0 <= i < |parts| ==> IsWord(parts[i])
    ensures parts == [] <==> r == ("", "", "")
    ensures parts != [] ==> Words(r.2) + [r.0] + (if r.1 == "" then [] else [r.1]) == parts
    ensures r.1 != "" <==> |parts| >= 4
    ensures r.2 != "" <==> |parts| >= 2
  {
    var n := |parts|;
    if n == 0 then ("", "", "")
    else if n == 1 then
      assert Words("") == [] && [] + [parts[0]] + [] == parts && IsWord(parts[0]);
      (parts[0], "", "")
    else if n == 2 then
      WordsOfJoin([parts[0]]);
      (parts[1], "", parts[0])
    else if n == 3 then
      WordsOfJoin(parts[..2]);
      JoinOfWordsNotEmpty(parts[..2]);
      assert parts[..2] + [parts[2]] == parts;
      (parts[2], "", Join(" ", parts[..2]))
    else
      WordsOfJoin(parts[..n - 2]);
      JoinOfWordsNotEmpty(parts[..n - 2]);
      assert parts[..n - 2] + [parts[n - 2]] + [parts[n - 1]] == parts;
      assert IsWord(parts[n - 1]) && parts[n - 1] != "";
      (parts[n - 2], parts[n - 1], Join(" ", parts[..n - 2]))
  }

  /** `split_full_name` (lines 939-964): `SplitTokens` of the words of the normalised name. */
  function SplitFullName(c: Cell): (r: (string, string, string))
    ensures Blank(c) ==> r == ("", "", "")
    ensures r == SplitTokens(Words(NormalizeName(c)))
  {
    if Blank(c) then ("", "", "") else SplitTokens(Words(NormalizeName(c)))
  }

  // ---------------------------------------------------------------- lemmas

  /** `str.upper` works character by character. */
  lemma {:induction false} UpperAppend(a: string, b: string)
    ensures Upper(a + b) == Upper(a) + Upper(b)
    decreases |a|
  {
    if a != [] {
      assert (a + b)[0] == a[0] && (a + b)[1..] == a[1..] + b;
      UpperAppend(a[1..], b);
    } else {
      assert a + b == b;
    }
  }

  /** Upper-casing a space-joined list upper-cases each element. */
  lemma {:induction false} UpperJoin(ws: seq<string>)
    ensures Upper(Join(" ", ws)) == Join(" ", UpperAll(ws))
    decreases |ws|
  {
    if |ws| > 1 {
      UpperAppend(ws[0] + " ", Join(" ", ws[1..]));
      UpperAppend(ws[0], " ");
      UpperJoin(ws[1..]);
      assert UpperAll(ws[1..]) == UpperAll(ws)[1..];
    }
  }

  /** The character filter keeps no digit, and upper-casing makes none. */
  lemma NameHasNoDigit(s: string)
    ensures forall i :: 0 <= i < |Upper(Squash(Filter(s, NameChar)))| ==> !IsDigit(Upper(Squash(Filter(s, NameChar)))[i])
  {
    var f := Filter(s, NameChar);
    var q := Squash(f);
    assert forall ch :: ch in q ==> !IsDigit(ch);
    UpperKeepsNoDigit(q);
  }

  lemma {:induction false} UpperKeepsNoDigit(s: string)
    requires forall ch :: ch in s ==> !IsDigit(ch)
    ensures forall i :: 0 <= i < |Upper(s)| ==> !IsDigit(Upper(s)[i])
    decreases |s|
  {
    if s != [] {
      assert forall ch :: ch in s[1..] ==> ch in s;
      UpperKeepsNoDigit(s[1..]);
      assert s[0] in s;
      var u := UpperChar(s[0]);
      assert Upper(s) == u + Upper(s[1..]);
      forall i | 0 <= i < |Upper(s)|
        ensures !IsDigit(Upper(s)[i])
      {
        if i < |u| {
          assert Upper(s)[i] == u[i];
        } else {
          assert Upper(s)[i] == Upper(s[1..])[i - |u|];
        }
      }
    }
  }

  /** A space-joined non-empty list of words is not empty. */
  lemma JoinOfWordsNotEmpty(ws: seq<string>)
    requires |ws| >= 1 && forall i :: 0 <= i < |ws| ==> IsWord(ws[i])
    ensures Join(" ", ws) != ""
  {
    WordsOfJoin(ws);
  }

  /** A character `normalize_name` leaves as it is: kept by the filter and its own upper case. */
  predicate Settled(x: char) {
    NameChar(x) && UpperChar(x) == [x]
  }

  /** Upper-casing a kept character other than ÿ gives settled characters. */
  lemma UpperSettles(x: char)
    requires NameChar(x) && x != 'ÿ'
    ensures forall i :: 0 <= i < |UpperChar(x)| ==> Settled(UpperChar(x)[i])
  {
  }

  lemma {:induction false} UpperSettlesAll(w: string)
    requires forall x :: x in w ==> NameChar(x) && x != 'ÿ'
    ensures forall i :: 0 <= i < |Upper(w)| ==> Settled(Upper(w)[i])
    decreases |w|
  {
    if w != [] {
      assert forall x :: x in w[1..] ==> x in w;
      UpperSettlesAll(w[1..]);
      assert w[0] in w;
      UpperSettles(w[0]);
      var u := UpperChar(w[0]);
      assert Upper(w) == u + Upper(w[1..]);
      forall i | 0 <= i < |Upper(w)|
        ensures Settled(Upper(w)[i])
      {
        if i < |u| {
          assert Upper(w)[i] == u[i];
        } else {
          assert Upper(w)[i] == Upper(w[1..])[i - |u|];
        }
      }
    }
  }

  /** Filtering only removes characters. */
  lemma {:induction false} FilterChars(s: string, keep: char -> bool)
    ensures forall x :: x in Filter(s, keep) ==> x in s
    decreases |s|
  {
    if s != [] {
      FilterChars(s[1..], keep);
      assert forall x :: x in s[1..] ==> x in s;
    }
  }

  /** Upper-casing a word gives a word. */
  lemma UpperWord(w: string)
    requires IsWord(w)
    ensures IsWord(Upper(w))
  {
    UpperAppend([w[0]], w[1..]);
    assert [w[0]] + w[1..] == w;
    forall i | 0 <= i < |Upper(w)|
      ensures !IsSpace(Upper(w)[i])
    {
      UpperKeepsNoSpace(w, i);
    }
  }

  lemma {:induction false} UpperKeepsNoSpace(w: string, i: nat)
    requires NoSpace(w) && i < |Upper(w)|
    ensures !IsSpace(Upper(w)[i])
    decreases |w|
  {
    var u := UpperChar(w[0]);
    assert Upper(w) == u + Upper(w[1..]);
    if i < |u| {
      assert Upper(w)[i] == u[i];
    } else {
      assert Upper(w)[i] == Upper(w[1..])[i - |u|];
      UpperKeepsNoSpace(w[1..], i - |u|);
    }
  }

  /**
   * Normalising a normalised name changes nothing, provided the text holds no ÿ
   * (whose upper case, Ÿ, lies outside the kept class and would be deleted).
   */
  lemma NormalizeIdempotent(c: Cell)
    requires 'ÿ' !in Str(c)
    ensures NormalizeName(Text(NormalizeName(c))) == NormalizeName(c)
  {
    var r := NormalizeName(c);
    if !Blank(c) && r != "" {
      var ws := NameWords(c);
      var vs := UpperAll(ws);
      assert r == Join(" ", vs);
      FilterChars(Str(c), NameChar);
      forall i | 0 <= i < |vs|
        ensures IsWord(vs[i])
        ensures forall k :: 0 <= k < |vs[i]| ==> Settled(vs[i][k])
      {
        UpperWord(ws[i]);
        assert forall x :: x in ws[i] ==> x in Filter(Str(c), NameChar);
        assert forall x :: x in ws[i] ==> NameChar(x) && x != 'ÿ';
        UpperSettlesAll(ws[i]);
      }
      SettledWordsNormal(vs);
    }
  }

  /** Settled words joined by single spaces are their own normal form. */
  lemma SettledWordsNormal(vs: seq<string>)
    requires vs != []
    requires forall i :: 0 <= i < |vs| ==> IsWord(vs[i])
    requires forall i :: 0 <= i < |vs| ==> forall k :: 0 <= k < |vs[i]| ==> Settled(vs[i][k])
    ensures NormalizeName(Text(Join(" ", vs))) == Join(" ", vs)
  {
    var r := Join(" ", vs);
    JoinWordsEnds(vs);
    StripIdentity(r);
    assert Str(Text(r)) == r && !Blank(Text(r));
    SettledJoinKept(vs);
    FilterAll(r, NameChar);
    WordsOfJoin(vs);
    assert NameWords(Text(r)) == vs;
    forall i | 0 <= i < |vs|
      ensures Upper(vs[i]) == vs[i]
    {
      UpperIdentity(vs[i]);
    }
    assert UpperAll(vs) == vs;
  }

  lemma SettledJoinKept(vs: seq<string>)
    requires forall i :: 0 <= i < |vs| ==> forall k :: 0 <= k < |vs[i]| ==> Settled(vs[i][k])
    ensures forall k :: 0 <= k < |Join(" ", vs)| ==> NameChar(Join(" ", vs)[k])
  {
    var r := Join(" ", vs);
    JoinChars(" ", vs);
    forall k | 0 <= k < |r|
      ensures NameChar(r[k])
    {
      assert r[k] in r;
      if r[k] != ' ' {
        var i :| 0 <= i < |vs| && r[k] in vs[i];
        var j :| 0 <= j < |vs[i]| && vs[i][j] == r[k];
        assert Settled(vs[i][j]);
      }
    }
  }

  /** ÿ is kept, but its upper case Ÿ is not: a second normalisation deletes it. */
  lemma YDiaeresisLost()
    ensures NormalizeName(Text("ÿ")) == "\U{178}"
    ensures NormalizeName(Text("\U{178}")) == ""
  {
    assert Filter("ÿ", NameChar) == "ÿ";
    assert Words("ÿ") == ["ÿ"];
    assert Upper("ÿ") == "\U{178}";
    assert Filter("\U{178}", NameChar) == "";
    assert Words("") == [];
  }

  /** A word holds no tab, tab being whitespace. */
  lemma WordNoTab(w: string)
    requires IsWord(w)
    ensures '\t' !in w
  {
  }

  /** A normalised name holds no tab: its words are joined by single spaces. */
  lemma NameNoTab(c: Cell)
    ensures '\t' !in NormalizeName(c)
  {
    if !Blank(c) {
      var ws := NameWords(c);
      var vs := UpperAll(ws);
      forall i | 0 <= i < |vs|
        ensures '\t' !in vs[i]
      {
        UpperWord(ws[i]);
        WordNoTab(vs[i]);
      }
      JoinNoSpaceExceptSep(vs, '\t');
    }
  }

  /** None of the three parts of a split holds a tab. */
  lemma SplitTokensNoTab(parts: seq<string>)
    requires forall i :: 0 <= i < |parts| ==> IsWord(parts[i])
    ensures var r := SplitTokens(parts); '\t' !in r.0 && '\t' !in r.1 && '\t' !in r.2
  {
    var n := |parts|;
    forall i | 0 <= i < n
      ensures '\t' !in parts[i]
    {
      WordNoTab(parts[i]);
    }
    if n == 3 {
      JoinNoSpaceExceptSep(parts[..2], '\t');
    } else if n >= 4 {
      JoinNoSpaceExceptSep(parts[..n - 2], '\t');
    }
  }

  /** None of the three parts `split_full_name` returns holds a tab. */
  lemma SplitNoTab(c: Cell)
    ensures var r := SplitFullName(c); '\t' !in r.0 && '\t' !in r.1 && '\t' !in r.2
  {
    if !Blank(c) {
      SplitTokensNoTab(Words(NormalizeName(c)));
    }
  }
}
