/**
 * The Python string primitives the converter relies on: `str.isspace`, `upper`,
 * `lower`, `strip`, `split()`, `split(sep)`, `sep.join`, the `in` substring test
 * and `str(int)`.  Characters are Unicode scalar values; case mapping and the
 * whitespace class are those of Python for ASCII and Latin-1 (U+0000..U+00FF).
 */
module Strings {

  /** `str.isspace()`, which is also what the regex class `\s` matches, on Latin-1. */
  predicate IsSpace(c: char) {
    c == ' ' || c == '\t' || c == '\n' || c == '\r' || c == '\U{B}' || c == '\U{C}'
    || ('\U{1C}' <= c <= '\U{1F}') || c == '\U{85}' || c == '\U{A0}'
  }

  predicate IsDigit(c: char) { '0' <= c <= '9' }
  predicate IsAsciiLower(c: char) { 'a' <= c <= 'z' }
  predicate IsAsciiUpper(c: char) { 'A' <= c <= 'Z' }
  predicate IsAsciiLetter(c: char) { IsAsciiLower(c) || IsAsciiUpper(c) }

  predicate AllDigits(s: string) { forall i :: 0 <= i < |s| ==> IsDigit(s[i]) }
  predicate AllAsciiLower(s: string) { forall i :: 0 <= i < |s| ==> IsAsciiLower(s[i]) }
  predicate NoSpace(s: string) { forall i :: 0 <= i < |s| ==> !IsSpace(s[i]) }

  /** A token of `split()`: non-empty and free of whitespace. */
  predicate IsWord(w: string) { w != [] && NoSpace(w) }

  // ---------------------------------------------------------------- case mapping

  /** `str.upper()` of one character (ß becomes "SS", ÿ becomes Ÿ, µ becomes Greek Mu). */
  function UpperChar(c: char): (r: string)
    ensures |r| >= 1
    ensures IsSpace(c) ==> r == [c]
    ensures forall i :: 0 <= i < |r| ==> (IsSpace(r[i]) <==> IsSpace(c))
    ensures forall i :: 0 <= i < |r| ==> (IsDigit(r[i]) <==> IsDigit(c))
  {
    if 'a' <= c <= 'z' || ('à' <= c <= 'þ' && c != '÷') then [(c as int - 32) as char]
    else if c == 'ß' then "SS"
    else if c == 'ÿ' then "\U{178}"
    else if c == 'µ' then "\U{39C}"
    else [c]
  }

  function Upper(s: string): (r: string)
    ensures |r| >= |s|
  {
    if s == [] then [] else UpperChar(s[0]) + Upper(s[1..])
  }

  /** `str.lower()` of one character. */
  function LowerChar(c: char): (r: char)
    ensures !IsAsciiUpper(r)
    ensures IsSpace(r) <==> IsSpace(c)
  {
    if 'A' <= c <= 'Z' || ('À' <= c <= 'Þ' && c != '×') then (c as int + 32) as char else c
  }

  function Lower(s: string): (r: string)
    ensures |r| == |s|
  {
    seq(|s|, i requires 0 <= i < |s| => LowerChar(s[i]))
  }

  // ---------------------------------------------------------------- strip

  function LStrip(s: string): (r: string)
    ensures |r| <= |s| && r == s[|s| - |r|..]
    ensures r == [] || !IsSpace(r[0])
  {
    if s != [] && IsSpace(s[0]) then LStrip(s[1..]) else s
  }

  function RStrip(s: string): (r: string)
    ensures |r| <= |s| && r == s[..|r|]
    ensures r == [] || !IsSpace(r[|r| - 1])
  {
    if s != [] && IsSpace(s[|s| - 1]) then RStrip(s[..|s| - 1]) else s
  }

  /** `str.strip()`: the result neither starts nor ends with whitespace. */
  function Strip(s: string): (r: string)
    ensures |r| <= |s|
    ensures r == [] || (!IsSpace(r[0]) && !IsSpace(r[|r| - 1]))
  {
    var l := LStrip(s);
    var r := RStrip(l);
    assert r != [] ==> r[0] == l[0];
    r
  }

  /** Stripping only removes characters. */
  lemma StripChars(s: string)
    ensures forall c :: c in Strip(s) ==> c in s
  {
    var l := LStrip(s);
    assert forall c :: c in RStrip(l) ==> c in l;
  }

  /** A text that starts with a non-space keeps its first character through `strip()`. */
  lemma StripLead(s: string)
    requires s != [] && !IsSpace(s[0])
    ensures Strip(s) != [] && Strip(s)[0] == s[0]
  {
    assert LStrip(s) == s;
    RStripLead(s);
  }

  lemma {:induction false} RStripLead(s: string)
    requires s != [] && !IsSpace(s[0])
    ensures RStrip(s) != [] && RStrip(s)[0] == s[0]
  {
    if IsSpace(s[|s| - 1]) {
      RStripLead(s[..|s| - 1]);
    }
  }

  // ---------------------------------------------------------------- split() and join

  /** Length of the leading run of non-whitespace characters. */
  function LeadingNonSpace(s: string): (n: nat)
    ensures n <= |s|
    ensures NoSpace(s[..n])
    ensures n < |s| ==> IsSpace(s[n])
  {
    if s == [] || IsSpace(s[0]) then 0 else 1 + LeadingNonSpace(s[1..])
  }

  /** `str.split()` without arguments: the maximal runs of non-whitespace characters. */
  function Words(s: string): (ws: seq<string>)
    ensures forall i :: 0 <= i < |ws| ==> IsWord(ws[i])
    ensures forall i, c :: 0 <= i < |ws| && c in ws[i] ==> c in s
    decreases |s|
  {
    if s == [] then []
    else if IsSpace(s[0]) then
      assert forall c :: c in s[1..] ==> c in s;
      Words(s[1..])
    else
      var n := LeadingNonSpace(s);
      assert forall c :: c in s[..n] || c in s[n..] ==> c in s;
      [s[..n]] + Words(s[n..])
  }

  /**
   * The first word of a text that starts with a non-space and holds a space is
   * its longest whitespace-free prefix, and a whitespace character follows it.
   */
  lemma FirstWord(s: string)
    requires s != [] && !IsSpace(s[0]) && ' ' in s
    ensures |Words(s)| > 0
    ensures var w := Words(s)[0]; IsWord(w) && |w| < |s| && s[..|w|] == w && IsSpace(s[|w|])
  {
    var n := LeadingNonSpace(s);
    assert Words(s) == [s[..n]] + Words(s[n..]);
  }

  /** `sep.join(ws)`. */
  function Join(sep: string, ws: seq<string>): string {
    if ws == [] then ""
    else if |ws| == 1 then ws[0]
    else ws[0] + sep + Join(sep, ws[1..])
  }

  /** `re.sub(r'\s+', ' ', s).strip()`: the words of `s` separated by single spaces. */
  function Squash(s: string): (r: string)
    ensures forall c :: c in r ==> c == ' ' || c in s
  {
    var ws := Words(s);
    JoinChars(" ", ws);
    Join(" ", ws)
  }

  /** `s.split(c)` for a one-character separator: never empty. */
  function SplitOn(s: string, c: char): (parts: seq<string>)
    ensures |parts| >= 1
    ensures forall i :: 0 <= i < |parts| ==> c !in parts[i]
  {
    if s == [] then [""]
    else
      var rest := SplitOn(s[1..], c);
      if s[0] == c then [""] + rest else [[s[0]] + rest[0]] + rest[1..]
  }

  /** The characters of `s` that satisfy `keep`, in order (`re.sub` with a negated class and ''). */
  function Filter(s: string, keep: char -> bool): (r: string)
    ensures |r| <= |s|
    ensures forall i :: 0 <= i < |r| ==> keep(r[i])
  {
    if s == [] then [] else (if keep(s[0]) then [s[0]] else []) + Filter(s[1..], keep)
  }

  /** `s.replace(c, '')` for a single character. */
  function RemoveChar(s: string, c: char): (r: string)
    ensures c !in r
    ensures forall x :: x != c ==> (x in r <==> x in s)
  {
    if s == [] then [] else (if s[0] == c then [] else [s[0]]) + RemoveChar(s[1..], c)
  }

  // ---------------------------------------------------------------- substring test

  predicate IsPrefix(p: string, s: string) { |p| <= |s| && s[..|p|] == p }

  /** Python's `sub in s`. */
  predicate Contains(s: string, sub: string)
    decreases |s|
  {
    IsPrefix(sub, s) || (s != [] && Contains(s[1..], sub))
  }

  predicate OccursAt(s: string, sub: string, i: nat) {
    i + |sub| <= |s| && s[i..i + |sub|] == sub
  }

  lemma {:induction false} ContainsOccurs(s: string, sub: string)
    ensures Contains(s, sub) <==> exists i: nat :: OccursAt(s, sub, i)
    decreases |s|
  {
    if Contains(s, sub) {
      if IsPrefix(sub, s) {
        assert OccursAt(s, sub, 0);
      } else {
        ContainsOccurs(s[1..], sub);
        var i: nat :| OccursAt(s[1..], sub, i);
        assert s[1..][i..i + |sub|] == s[i + 1..i + 1 + |sub|];
        assert OccursAt(s, sub, i + 1);
      }
    }
    if exists i: nat :: OccursAt(s, sub, i) {
      var i: nat :| OccursAt(s, sub, i);
      if i == 0 {
        assert IsPrefix(sub, s);
      } else {
        assert s[1..][i - 1..i - 1 + |sub|] == s[i..i + |sub|];
        assert OccursAt(s[1..], sub, i - 1);
        ContainsOccurs(s[1..], sub);
      }
    }
  }

  /** A substring is never longer than the string that contains it. */
  lemma ContainsShorter(s: string, sub: string)
    requires Contains(s, sub)
    ensures |sub| <= |s|
  {
    ContainsOccurs(s, sub);
  }

  /** A text never contains anything longer than itself. */
  lemma NotContainedIfLonger(s: string, sub: string)
    requires |s| < |sub|
    ensures !Contains(s, sub)
  {
    ContainsOccurs(s, sub);
  }

  /** Substring containment is transitive. */
  lemma ContainsTransitive(a: string, b: string, c: string)
    requires Contains(a, b) && Contains(b, c)
    ensures Contains(a, c)
  {
    ContainsOccurs(a, b);
    ContainsOccurs(b, c);
    var i: nat :| OccursAt(a, b, i);
    var j: nat :| OccursAt(b, c, j);
    assert b == a[i..i + |b|];
    forall k | 0 <= k < |c|
      ensures a[i + j + k] == c[k]
    {
      assert c[k] == b[j + k] == a[i + j + k];
    }
    assert a[i + j..i + j + |c|] == c;
    assert OccursAt(a, c, i + j);
    ContainsOccurs(a, c);
  }

  lemma ContainsSelf(s: string)
    ensures Contains(s, s)
  {
    assert IsPrefix(s, s);
  }

  // ---------------------------------------------------------------- str(int)

  function DigitChar(d: nat): (c: char)
    requires d < 10
    ensures IsDigit(c)
  {
    ('0' as int + d) as char
  }

  /** `str(n)` for a natural number. */
  function NatToString(n: nat): (s: string)
    ensures |s| >= 1 && AllDigits(s)
  {
    if n < 10 then [DigitChar(n)] else NatToString(n / 10) + [DigitChar(n % 10)]
  }

  /** `str(i)` for a Python int. */
  function IntToString(i: int): string {
    if i < 0 then "-" + NatToString(-i) else NatToString(i)
  }

  /** `int(s)` for a string of ASCII digits. */
  function DigitsValue(s: string): nat
    requires AllDigits(s)
  {
    if s == [] then 0 else DigitsValue(s[..|s| - 1]) * 10 + (s[|s| - 1] as int - '0' as int)
  }

  /** `%02d`: two digits for a number below one hundred. */
  function Pad2(n: nat): (s: string)
    requires n < 100
  {
    if n < 10 then "0" + NatToString(n) else NatToString(n)
  }

  // ---------------------------------------------------------------- lemmas

  /** `int(str(n)) == n`. */
  lemma {:induction false} NatToStringValue(n: nat)
    ensures DigitsValue(NatToString(n)) == n
    decreases n
  {
    if n >= 10 {
      NatToStringValue(n / 10);
      var s := NatToString(n);
      assert s[..|s| - 1] == NatToString(n / 10);
    }
  }

  /** Two-digit padding is exactly two digits and reads back as the number. */
  lemma Pad2Digits(n: nat)
    requires n < 100
    ensures |Pad2(n)| == 2 && AllDigits(Pad2(n)) && DigitsValue(Pad2(n)) == n
  {
    NatToStringValue(n);
    if n < 10 {
      var s := Pad2(n);
      assert s[..1] == "0";
    } else {
      assert NatToString(n / 10) == [DigitChar(n / 10)];
    }
  }

  /** Four-digit numbers print as four digits. */
  lemma NatToString4(n: nat)
    requires 1000 <= n <= 9999
    ensures |NatToString(n)| == 4
  {
    assert NatToString(n / 1000) == [DigitChar(n / 1000)];
    assert |NatToString(n / 100)| == 2;
    assert |NatToString(n / 10)| == 3;
  }

  lemma {:induction false} LeadingNonSpaceOfWordSpace(w: string, t: string)
    requires NoSpace(w)
    ensures LeadingNonSpace(w + t) == |w| + LeadingNonSpace(t)
    decreases |w|
  {
    if w != [] {
      assert (w + t)[0] == w[0] && !IsSpace(w[0]);
      assert (w + t)[1..] == w[1..] + t;
      assert NoSpace(w[1..]);
      LeadingNonSpaceOfWordSpace(w[1..], t);
      assert LeadingNonSpace(w + t) == 1 + LeadingNonSpace((w + t)[1..]);
    } else {
      assert w + t == t;
    }
  }

  lemma WordsOfWordThen(w: string, t: string)
    requires IsWord(w)
    requires t == [] || IsSpace(t[0])
    ensures Words(w + t) == [w] + Words(t)
  {
    LeadingNonSpaceOfWordSpace(w, t);
    assert LeadingNonSpace(t) == 0;
    assert (w + t)[..|w|] == w;
    assert (w + t)[|w|..] == t;
  }

  /** Splitting a space-joined list of words gives the words back. */
  lemma {:induction false} WordsOfJoin(ws: seq<string>)
    requires forall i :: 0 <= i < |ws| ==> IsWord(ws[i])
    ensures Words(Join(" ", ws)) == ws
    decreases |ws|
  {
    if ws == [] {
    } else if |ws| == 1 {
      WordsOfWordThen(ws[0], "");
      assert ws[0] + "" == ws[0];
    } else {
      var rest := Join(" ", ws[1..]);
      assert Join(" ", ws) == ws[0] + (" " + rest);
      WordsOfWordThen(ws[0], " " + rest);
      assert (" " + rest)[1..] == rest;
      WordsOfJoin(ws[1..]);
    }
  }

  lemma {:induction false} JoinNoSpaceExceptSep(ws: seq<string>, c: char)
    requires c != ' '
    requires forall i :: 0 <= i < |ws| ==> c !in ws[i]
    ensures c !in Join(" ", ws)
    decreases |ws|
  {
    if |ws| > 1 {
      JoinNoSpaceExceptSep(ws[1..], c);
    }
  }

  lemma {:induction false} SplitOnNoSep(s: string, c: char)
    requires c !in s
    ensures SplitOn(s, c) == [s]
    decreases |s|
  {
    if s != [] {
      assert c !in s[1..];
      SplitOnNoSep(s[1..], c);
      assert [s[0]] + s[1..] == s;
    }
  }

  lemma {:induction false} SplitOnSepThen(a: string, c: char, b: string)
    requires c !in a
    ensures SplitOn(a + [c] + b, c) == [a] + SplitOn(b, c)
    decreases |a|
  {
    if a == [] {
      assert a + [c] + b == [c] + b;
      assert ([c] + b)[1..] == b;
    } else {
      assert (a + [c] + b)[1..] == a[1..] + [c] + b;
      SplitOnSepThen(a[1..], c, b);
      assert [a[0]] + a[1..] == a;
    }
  }

  /** Splitting a `c`-joined list whose parts do not contain `c` gives the parts back. */
  lemma {:induction false} SplitOnJoin(ws: seq<string>, c: char)
    requires |ws| >= 1
    requires forall i :: 0 <= i < |ws| ==> c !in ws[i]
    ensures SplitOn(Join([c], ws), c) == ws
    decreases |ws|
  {
    if |ws| == 1 {
      SplitOnNoSep(ws[0], c);
    } else {
      SplitOnSepThen(ws[0], c, Join([c], ws[1..]));
      SplitOnJoin(ws[1..], c);
    }
  }

  /** Every character of a join comes from the separator or from one of the parts. */
  lemma {:induction false} JoinChars(sep: string, ws: seq<string>)
    ensures forall c :: c in Join(sep, ws) ==> c in sep || exists i :: 0 <= i < |ws| && c in ws[i]
    decreases |ws|
  {
    if |ws| > 1 {
      JoinChars(sep, ws[1..]);
      forall c | c in Join(sep, ws)
        ensures c in sep || exists i :: 0 <= i < |ws| && c in ws[i]
      {
        if c !in ws[0] && c !in sep {
          assert c in Join(sep, ws[1..]);
          var i :| 0 <= i < |ws[1..]| && c in ws[1..][i];
          assert c in ws[i + 1];
        }
      }
    }
  }

  /** Upper-casing leaves alone a string whose characters are all their own upper case. */
  lemma {:induction false} UpperIdentity(s: string)
    requires forall i :: 0 <= i < |s| ==> UpperChar(s[i]) == [s[i]]
    ensures Upper(s) == s
    decreases |s|
  {
    if s != [] {
      UpperIdentity(s[1..]);
      assert [s[0]] + s[1..] == s;
    }
  }

  /** Stripping leaves alone a string that neither starts nor ends with whitespace. */
  lemma StripIdentity(s: string)
    requires s == [] || (!IsSpace(s[0]) && !IsSpace(s[|s| - 1]))
    ensures Strip(s) == s
  {
  }

  /** A filter that keeps every character is the identity. */
  lemma {:induction false} FilterAll(s: string, keep: char -> bool)
    requires forall i :: 0 <= i < |s| ==> keep(s[i])
    ensures Filter(s, keep) == s
    decreases |s|
  {
    if s != [] {
      FilterAll(s[1..], keep);
      assert [s[0]] + s[1..] == s;
    }
  }

  /** A filter that keeps no character leaves nothing. */
  lemma {:induction false} FilterNone(s: string, keep: char -> bool)
    requires forall i :: 0 <= i < |s| ==> !keep(s[i])
    ensures Filter(s, keep) == ""
    decreases |s|
  {
    if s != [] {
      FilterNone(s[1..], keep);
    }
  }

  /** A space-joined list of words neither starts nor ends with whitespace. */
  lemma {:induction false} JoinWordsEnds(ws: seq<string>)
    requires forall i :: 0 <= i < |ws| ==> IsWord(ws[i])
    ensures var j := Join(" ", ws); j == [] || (!IsSpace(j[0]) && !IsSpace(j[|j| - 1]))
    ensures ws != [] ==> Join(" ", ws) != []
    decreases |ws|
  {
    if |ws| > 1 {
      JoinWordsEnds(ws[1..]);
      var j := Join(" ", ws);
      var rest := Join(" ", ws[1..]);
      assert j == ws[0] + " " + rest;
      assert j[0] == ws[0][0];
      assert j[|j| - 1] == rest[|rest| - 1];
    }
  }

  /** Collapsing whitespace twice is collapsing it once. */
  lemma SquashIdempotent(s: string)
    ensures Squash(Squash(s)) == Squash(s)
  {
    WordsOfJoin(Words(s));
  }

  /** A printed integer consists of digits and a minus sign. */
  lemma NumeralChars(n: int)
    ensures forall c :: c in IntToString(n) ==> IsDigit(c) || c == '-'
  {
    if n < 0 {
      assert IntToString(n) == "-" + NatToString(-n);
    }
  }

  /** Upper-casing a printed integer changes nothing. */
  lemma UpperNumeral(n: int)
    ensures Upper(IntToString(n)) == IntToString(n)
  {
    var s := IntToString(n);
    NumeralChars(n);
    forall i | 0 <= i < |s|
      ensures UpperChar(s[i]) == [s[i]]
    {
      assert s[i] in s;
    }
    UpperIdentity(s);
  }

  /** A text in which the first two characters of `sub` never stand side by side does not contain `sub`. */
  lemma {:induction false} NoAdjacentPair(s: string, sub: string)
    requires |sub| >= 2
    requires forall i :: 0 <= i < |s| - 1 ==> s[i] != sub[0] || s[i + 1] != sub[1]
    ensures !Contains(s, sub)
    decreases |s|
  {
    if s != [] {
      if |sub| <= |s| {
        assert s[0] != sub[0] || s[1] != sub[1];
        assert s[..|sub|][0] == s[0] && s[..|sub|][1] == s[1];
      }
      NoAdjacentPair(s[1..], sub);
    }
  }

  /** Upper-casing never introduces a tab. */
  lemma {:induction false} UpperNoTab(s: string)
    requires '\t' !in s
    ensures '\t' !in Upper(s)
    decreases |s|
  {
    if s != [] {
      var r := UpperChar(s[0]);
      assert s[0] != '\t';
      assert '\t' !in r by {
        if !IsSpace(s[0]) {
          assert forall i :: 0 <= i < |r| ==> !IsSpace(r[i]);
        }
      }
      assert s[1..] == s[1..] && '\t' !in s[1..];
      UpperNoTab(s[1..]);
    }
  }
}
