/**
 * `DateParser` (sire_converter.py lines 858-918): reading a cell as a date and
 * printing it in the SIRE form dd/mm/yyyy.  Text goes through the eight
 * `strptime` formats in order; each format is modelled as the regular
 * expression `strptime` compiles it to, matched with the same backtracking
 * order, followed by the end-of-text check and `datetime`'s calendar check.
 */
module DateParser {
  import opened Wrappers
  import opened Strings
  import opened Calendar
  import opened Cells
  import opened Records

  /** `datetime.now().year`, passed in: a year after the epoch that has a successor `datetime` accepts. */
  type CurrentYear = y: int | 1970 <= y <= 9998 witness 2026

  // ---------------------------------------------------------------- formats

  /**
   * One piece of a `strptime` format: a literal character, a run of format
   * whitespace (compiled to `\s+`), or one of `%d`, `%m`, `%Y`, `%b`, `%B`.
   */
  datatype Directive = Lit(c: char) | Gap | Day | Month | Year | MonthAbbr | MonthName

  type Pattern = seq<Directive>

  /** `FORMATS`, in the order they are tried (lines 861-870). */
  const Formats: seq<Pattern> := [
    [Day, Lit('/'), Month, Lit('/'), Year],     // %d/%m/%Y
    [Year, Lit('-'), Month, Lit('-'), Day],     // %Y-%m-%d
    [Day, Lit('-'), Month, Lit('-'), Year],     // %d-%m-%Y
    [Month, Lit('/'), Day, Lit('/'), Year],     // %m/%d/%Y
    [Day, Lit('.'), Month, Lit('.'), Year],     // %d.%m.%Y
    [Year, Lit('/'), Month, Lit('/'), Day],     // %Y/%m/%d
    [Day, Gap, MonthAbbr, Gap, Year],           // %d %b %Y
    [Day, Gap, MonthName, Gap, Year]            // %d %B %Y
  ]

  /** Month abbreviations and names of the C locale, lower-cased as `strptime` keeps them. */
  const Abbreviations: seq<string> :=
    ["jan", "feb", "mar", "apr", "may", "jun", "jul", "aug", "sep", "oct", "nov", "dec"]
  const MonthNames: seq<string> :=
    ["january", "february", "march", "april", "may", "june", "july", "august", "september",
     "october", "november", "december"]

  // ---------------------------------------------------------------- one directive

  /** One way a directive can match: where the match ends and the number it denotes. */
  datatype Piece = Piece(end: nat, value: int)

  function Val(c: char): int { c as int - '0' as int }

  /** Position `i` of `s` holds a character between `lo` and `hi`. */
  predicate CharIn(s: string, i: nat, lo: char, hi: char) {
    i < |s| && lo <= s[i] <= hi
  }

  /** `%d`: the alternatives `3[01]|[12]\d|0[1-9]|[1-9]| [1-9]`, in this order. */
  function DayPieces(s: string, i: nat): (ps: seq<Piece>)
    ensures forall k :: 0 <= k < |ps| ==> i < ps[k].end <= |s|
  {
    (if CharIn(s, i, '3', '3') && CharIn(s, i + 1, '0', '1') then [Piece(i + 2, 30 + Val(s[i + 1]))] else [])
    + (if CharIn(s, i, '1', '2') && CharIn(s, i + 1, '0', '9') then [Piece(i + 2, 10 * Val(s[i]) + Val(s[i + 1]))] else [])
    + (if CharIn(s, i, '0', '0') && CharIn(s, i + 1, '1', '9') then [Piece(i + 2, Val(s[i + 1]))] else [])
    + (if CharIn(s, i, '1', '9') then [Piece(i + 1, Val(s[i]))] else [])
    + (if CharIn(s, i, ' ', ' ') && CharIn(s, i + 1, '1', '9') then [Piece(i + 2, Val(s[i + 1]))] else [])
  }

  /** `%m`: the alternatives `1[0-2]|0[1-9]|[1-9]`, in this order. */
  function MonthPieces(s: string, i: nat): (ps: seq<Piece>)
    ensures forall k :: 0 <= k < |ps| ==> i < ps[k].end <= |s|
  {
    (if CharIn(s, i, '1', '1') && CharIn(s, i + 1, '0', '2') then [Piece(i + 2, 10 + Val(s[i + 1]))] else [])
    + (if CharIn(s, i, '0', '0') && CharIn(s, i + 1, '1', '9') then [Piece(i + 2, Val(s[i + 1]))] else [])
    + (if CharIn(s, i, '1', '9') then [Piece(i + 1, Val(s[i]))] else [])
  }

  /** `%Y`: exactly four digits. */
  function YearPieces(s: string, i: nat): (ps: seq<Piece>)
    ensures forall k :: 0 <= k < |ps| ==> i < ps[k].end <= |s|
  {
    if i + 4 <= |s| && AllDigits(s[i..i + 4])
    then [Piece(i + 4, 1000 * Val(s[i]) + 100 * Val(s[i + 1]) + 10 * Val(s[i + 2]) + Val(s[i + 3]))]
    else []
  }

  /**
   * `%b` or `%B`: the names of `names` that match at `i` ignoring case, from
   * `names[k]` on; a name denotes its month number.  No name is a prefix of
   * another, so at most one matches and the alternation order does not matter.
   */
  function NamePieces(names: seq<string>, k: nat, s: string, i: nat): (ps: seq<Piece>)
    requires k <= |names| <= 12
    requires forall j :: 0 <= j < |names| ==> names[j] != ""
    ensures forall j :: 0 <= j < |ps| ==> i < ps[j].end <= |s|
    decreases |names| - k
  {
    if k == |names| then []
    else
      var n := names[k];
      (if i + |n| <= |s| && Lower(s[i..i + |n|]) == n then [Piece(i + |n|, k + 1)] else [])
      + NamePieces(names, k + 1, s, i)
  }

  /** Length of the run of whitespace starting at `i`. */
  function SpaceRun(s: string, i: nat): (n: nat)
    ensures i + n <= |s| || (i >= |s| && n == 0)
    decreases |s| - i
  {
    if i < |s| && IsSpace(s[i]) then 1 + SpaceRun(s, i + 1) else 0
  }

  /** `\s+`: greedy, so the longest run first, then each shorter one. */
  function GapPieces(s: string, i: nat): (ps: seq<Piece>)
    ensures forall k :: 0 <= k < |ps| ==> i < ps[k].end <= |s|
  {
    var n := SpaceRun(s, i);
    seq(n, k requires 0 <= k < n => Piece(i + n - k, 0))
  }

  /** The ways directive `d` can match at position `i`, in the order the regex tries them. */
  function Pieces(d: Directive, s: string, i: nat): (ps: seq<Piece>)
    ensures forall k :: 0 <= k < |ps| ==> i < ps[k].end <= |s|
  {
    match d
    case Lit(c) => if i < |s| && s[i] == c then [Piece(i + 1, 0)] else []
    case Gap => GapPieces(s, i)
    case Day => DayPieces(s, i)
    case Month => MonthPieces(s, i)
    case Year => YearPieces(s, i)
    case MonthAbbr => NamePieces(Abbreviations, 0, s, i)
    case MonthName => NamePieces(MonthNames, 0, s, i)
  }

  /** Records the number a directive matched in the partial date. */
  function Store(acc: Date, d: Directive, v: int): Date {
    match d
    case Day => acc.(day := v)
    case Month => acc.(month := v)
    case MonthAbbr => acc.(month := v)
    case MonthName => acc.(month := v)
    case Year => acc.(year := v)
    case _ => acc
  }

  // ---------------------------------------------------------------- the regex match

  /**
   * `re.match` of the compiled format at position `i`, trying the `k`-th way of
   * matching the first directive and then the later ways on failure
   * (backtracking).  The expression is not anchored at the end, so the first
   * complete match is the answer, with the position where it ends.
   */
  function MatchAt(f: Pattern, s: string, i: nat, acc: Date, k: nat): (r: Option<(nat, Date)>)
    ensures r.Some? ==> i + |f| <= r.value.0 && (f != [] ==> r.value.0 <= |s|)
    decreases |f|, if f == [] then 0 else |Pieces(f[0], s, i)| - k
  {
    if f == [] then Some((i, acc))
    else
      var ps := Pieces(f[0], s, i);
      if k >= |ps| then None
      else
        match MatchAt(f[1..], s, ps[k].end, Store(acc, f[0], ps[k].value), 0)
        case Some(m) => Some(m)
        case None => MatchAt(f, s, i, acc, k + 1)
  }

  /**
   * `datetime.strptime(s, f)`: the match from the start (defaults day 1, month 1,
   * year 1900), then "unconverted data remains" unless it ends at the end of
   * `s`, then `ValueError` unless the date exists; `None` stands for the error.
   */
  function Strptime(s: string, f: Pattern): (r: Option<Date>)
    ensures r.Some? ==> IsValid(r.value)
  {
    match MatchAt(f, s, 0, Date(1, 1, 1900), 0)
    case None => None
    case Some((e, d)) => if e == |s| && IsValid(d) then Some(d) else None
  }

  /** Format `k` reads `t` as a date whose year passes the guard of line 900. */
  predicate Accepted(t: string, cy: CurrentYear, k: nat)
    requires k < |Formats|
  {
    var p := Strptime(t, Formats[k]);
    p.Some? && 1900 <= p.value.year <= cy + 1
  }

  /** The first format, from `k` on, that accepts `t` (the loop of lines 894-904). */
  function FirstAccepted(t: string, cy: CurrentYear, k: nat): (r: Option<nat>)
    requires k <= |Formats|
    ensures r.Some? ==> k <= r.value < |Formats| && Accepted(t, cy, r.value)
    ensures r.Some? ==> forall j :: k <= j < r.value ==> !Accepted(t, cy, j)
    ensures r.None? <==> forall j :: k <= j < |Formats| ==> !Accepted(t, cy, j)
    decreases |Formats| - k
  {
    if k == |Formats| then None
    else if Accepted(t, cy, k) then Some(k)
    else FirstAccepted(t, cy, k + 1)
  }

  // ---------------------------------------------------------------- parse

  /** The spellings of a missing value that line 888 turns away, lower-cased. */
  const NullWords: seq<string> := ["nan", "none", "nat", ""]

  /** Text that is neither missing, nor a Timestamp or NaT, nor a null spelling: the formats are tried on it. */
  predicate Presented(c: Cell) {
    !c.Null? && !IsNanOrEmpty(c) && !c.Temporal? && !c.NaT?
    && Strip(Str(c)) != "" && Lower(Strip(Str(c))) !in NullWords
  }

  /**
   * `str(value).strip()`, cut at the first whitespace when it holds a space
   * (line 892): then the first word of `split()`, the longest prefix free of
   * whitespace.
   */
  function DateText(c: Cell): (t: string)
    ensures ' ' !in Strip(Str(c)) ==> t == Strip(Str(c))
    ensures ' ' in Strip(Str(c)) ==> |Words(Strip(Str(c)))| > 0 && t == Words(Strip(Str(c)))[0]
    ensures ' ' in Strip(Str(c)) ==>
      var s := Strip(Str(c));
      IsWord(t) && |t| < |s| && s[..|t|] == t && IsSpace(s[|t|])
  {
    var s := Strip(Str(c));
    if ' ' in s then
      assert s != [] && !IsSpace(s[0]);
      FirstWord(s);
      Words(s)[0]
    else s
  }

  /**
   * The format loop and its fallback (lines 894-906): the first format that
   * reads `t` as a date with a year in `1900..cy + 1` gives that date printed
   * dd/mm/yyyy, HIGH for the first two formats and MEDIUM for the others;
   * when none does, `("", LOW)`.
   */
  function ReadText(t: string, cy: CurrentYear): (r: (string, Confidence))
    ensures r.1 == High || r.1 == Medium || r.1 == Low
    ensures r.0 == "" <==> r.1 == Low
    ensures r.1 == Low <==> forall k :: 0 <= k < |Formats| ==> !Accepted(t, cy, k)
    ensures r.0 != "" ==> exists d :: IsPrintable(d) && 1900 <= d.year <= cy + 1 && r.0 == Format(d)
    ensures r.1 == High <==> Accepted(t, cy, 0) || Accepted(t, cy, 1)
  {
    match FirstAccepted(t, cy, 0)
    case None => ("", Low)
    case Some(k) =>
      var d := Strptime(t, Formats[k]).value;
      assert IsPrintable(d);
      (Format(d), if k < 2 then High else Medium)
  }

  /** What `NaT.strftime` raises. */
  const NaTMessage: string := "NaTType does not support strftime"

  /**
   * `DateParser.parse` (lines 873-906): `("", NONE)` for missing values and
   * null spellings, a Timestamp's own date at HIGH, an exception for NaT
   * (whose `strftime` raises), and otherwise `ReadText` of the date text.
   */
  function Parse(c: Cell, cy: CurrentYear): (r: Result<(string, Confidence)>)
    ensures r.Raised? <==> c.NaT?
    ensures r.Raised? ==> r.message == NaTMessage
    ensures c.Null? || IsNanOrEmpty(c) ==> r == Ok(("", Undetected))
    ensures c.Temporal? ==> r == Ok((Format(c.date), High))
    ensures r == Ok(("", Undetected)) <==> !c.NaT? && !c.Temporal? && !Presented(c)
    ensures Presented(c) ==> r == Ok(ReadText(DateText(c), cy))
  {
    if c.Null? || IsNanOrEmpty(c) then Ok(("", Undetected))
    else if c.Temporal? then Ok((Format(c.date), High))
    else if c.NaT? then Raised(NaTMessage)
    else
      var s := Strip(Str(c));
      if s == "" || Lower(s) in NullWords then Ok(("", Undetected))
      else Ok(ReadText(DateText(c), cy))
  }

  /**
   * `parse` as its format list means it: the formats are tried on the whole
   * stripped text first, so that `31 Dec 2024` reaches `%d %b %Y`, and only
   * when none reads it is the text cut at the first space to drop a time of day.
   */
  function ParseCorrected(c: Cell, cy: CurrentYear): (r: Result<(string, Confidence)>)
    ensures r.Raised? <==> c.NaT?
    ensures r.Raised? ==> r.message == NaTMessage
    ensures !Presented(c) ==> r == Parse(c, cy)
    ensures Presented(c) && ReadText(Strip(Str(c)), cy).1 != Low ==> r == Ok(ReadText(Strip(Str(c)), cy))
    ensures Presented(c) && ReadText(Strip(Str(c)), cy).1 == Low ==> r == Ok(ReadText(DateText(c), cy))
    ensures ' ' !in Strip(Str(c)) ==> r == Parse(c, cy)
  {
    if Presented(c) then
      var whole := ReadText(Strip(Str(c)), cy);
      if whole.1 != Low then Ok(whole) else Parse(c, cy)
    else Parse(c, cy)
  }

  /**
   * The parser a conversion runs: `parse` as written or corrected.  Either way
   * only NaT raises, and a reading holds no tab.
   */
  function ParseWith(rs: Resolvers, c: Cell, cy: CurrentYear): (r: Result<(string, Confidence)>)
    ensures r.Raised? <==> c.NaT?
    ensures r.Raised? ==> r.message == NaTMessage
    ensures r.Ok? ==> '\t' !in r.value.0
    ensures rs == AsWritten ==> r == Parse(c, cy)
    ensures rs == Corrected ==> r == ParseCorrected(c, cy)
  {
    ParsedNoTab(c, cy);
    match rs
    case AsWritten => Parse(c, cy)
    case Corrected => ParseCorrected(c, cy)
  }

  /**
   * `DateParser.infer_from_age`: an integer age in `0..120` gives 15 June of
   * `cy - age` at LOW; other values give `("", NONE)`, and a float NaN passes
   * the range test and makes `int()` raise.
   */
  function InferFromAge(age: Cell, cy: CurrentYear): (r: Result<(string, Confidence)>)
    ensures r.Raised? <==> age.NaN?
    ensures r.Ok? && r.value.1 == Low <==> age.Int? && 0 <= age.n <= 120
    ensures r.Ok? && r.value.1 != Low ==> r.value == ("", Undetected)
    ensures age.Int? && 0 <= age.n <= 120 ==>
      r.Ok? && r.value.0 == Format(Date(15, 6, cy - age.n))
  {
    match age
    case Int(n) =>
      if n < 0 || n > 120 then Ok(("", Undetected))
      else Ok((Format(Date(15, 6, cy - n)), Low))
    case NaN => Raised("cannot convert float NaN to integer")
    case _ => Ok(("", Undetected))
  }

  // ---------------------------------------------------------------- lemmas

  lemma ValDigit(x: nat)
    requires x < 10
    ensures Val(DigitChar(x)) == x
  {
  }

  /** The two characters of a zero-padded number. */
  lemma Pad2Chars(n: nat)
    requires n < 100
    ensures Pad2(n) == [DigitChar(n / 10), DigitChar(n % 10)]
  {
    if n >= 10 {
      assert NatToString(n / 10) == [DigitChar(n / 10)];
    }
  }

  /** The four characters of a four-digit year. */
  lemma YearChars(y: nat)
    requires 1000 <= y <= 9999
    ensures NatToString(y) == [DigitChar(y / 1000), DigitChar(y / 100 % 10), DigitChar(y / 10 % 10), DigitChar(y % 10)]
  {
    assert y / 100 / 10 == y / 1000 && y / 10 / 10 == y / 100;
    assert NatToString(y / 1000) == [DigitChar(y / 1000)];
    assert NatToString(y / 100) == NatToString(y / 1000) + [DigitChar(y / 100 % 10)];
    assert NatToString(y / 10) == NatToString(y / 100) + [DigitChar(y / 10 % 10)];
    assert NatToString(y) == NatToString(y / 10) + [DigitChar(y % 10)];
  }

  /** A four-digit number is the weighted sum of its digits. */
  lemma YearDigits(y: nat)
    ensures 1000 * (y / 1000) + 100 * (y / 100 % 10) + 10 * (y / 10 % 10) + y % 10 == y
  {
    var a, b, c := y / 1000, y / 100, y / 10;
    assert y == 10 * c + y % 10;
    assert c == 10 * b + c % 10;
    assert b == 10 * a + b % 10;
    assert c / 10 == b && b / 10 == a;
  }

  /** The printed form of a date, character by character. */
  lemma FormatChars(d: Date)
    requires IsPrintable(d)
    ensures Format(d) == [DigitChar(d.day / 10), DigitChar(d.day % 10), '/',
                          DigitChar(d.month / 10), DigitChar(d.month % 10), '/',
                          DigitChar(d.year / 1000), DigitChar(d.year / 100 % 10),
                          DigitChar(d.year / 10 % 10), DigitChar(d.year % 10)]
  {
    Pad2Chars(d.day);
    Pad2Chars(d.month);
    YearChars(d.year);
  }

  /** A zero-padded day of the month is matched by `%d` first as a whole. */
  lemma DayFirst(s: string, i: nat, n: int)
    requires 1 <= n <= 31 && i + 2 <= |s|
    requires s[i] == DigitChar(n / 10) && s[i + 1] == DigitChar(n % 10)
    ensures |Pieces(Day, s, i)| > 0 && Pieces(Day, s, i)[0] == Piece(i + 2, n)
  {
    ValDigit(n / 10);
    ValDigit(n % 10);
  }

  /** A zero-padded month is matched by `%m` first as a whole. */
  lemma MonthFirst(s: string, i: nat, n: int)
    requires 1 <= n <= 12 && i + 2 <= |s|
    requires s[i] == DigitChar(n / 10) && s[i + 1] == DigitChar(n % 10)
    ensures |Pieces(Month, s, i)| > 0 && Pieces(Month, s, i)[0] == Piece(i + 2, n)
  {
    ValDigit(n / 10);
    ValDigit(n % 10);
  }

  /** Four digits are matched by `%Y`. */
  lemma YearFirst(s: string, i: nat, y: int)
    requires 1000 <= y <= 9999 && i + 4 <= |s|
    requires s[i] == DigitChar(y / 1000) && s[i + 1] == DigitChar(y / 100 % 10)
    requires s[i + 2] == DigitChar(y / 10 % 10) && s[i + 3] == DigitChar(y % 10)
    ensures |Pieces(Year, s, i)| > 0 && Pieces(Year, s, i)[0] == Piece(i + 4, y)
  {
    ValDigit(y / 1000);
    ValDigit(y / 100 % 10);
    ValDigit(y / 10 % 10);
    ValDigit(y % 10);
    YearDigits(y);
    assert AllDigits(s[i..i + 4]) by {
      assert s[i..i + 4] == [s[i], s[i + 1], s[i + 2], s[i + 3]];
    }
  }

  /** When the first way of matching the first directive leads to a match, that match is the answer. */
  lemma MatchFirst(f: Pattern, s: string, i: nat, acc: Date)
    requires f != [] && |Pieces(f[0], s, i)| > 0
    requires MatchAt(f[1..], s, Pieces(f[0], s, i)[0].end, Store(acc, f[0], Pieces(f[0], s, i)[0].value), 0).Some?
    ensures MatchAt(f, s, i, acc, 0)
      == MatchAt(f[1..], s, Pieces(f[0], s, i)[0].end, Store(acc, f[0], Pieces(f[0], s, i)[0].value), 0)
  {
  }

  /** The match that takes the first way of matching every directive. */
  function FirstWay(f: Pattern, s: string, i: nat, acc: Date): Option<(nat, Date)>
    decreases |f|
  {
    if f == [] then Some((i, acc))
    else
      var ps := Pieces(f[0], s, i);
      if ps == [] then None else FirstWay(f[1..], s, ps[0].end, Store(acc, f[0], ps[0].value))
  }

  /** When taking the first way everywhere succeeds, no backtracking happens. */
  lemma {:induction false} FirstWayMatches(f: Pattern, s: string, i: nat, acc: Date)
    requires FirstWay(f, s, i, acc).Some?
    ensures MatchAt(f, s, i, acc, 0) == FirstWay(f, s, i, acc)
    decreases |f|
  {
    if f != [] {
      var p := Pieces(f[0], s, i)[0];
      FirstWayMatches(f[1..], s, p.end, Store(acc, f[0], p.value));
    }
  }

  /** `strptime(Format(d), "%d/%m/%Y")` gives `d` back. */
  lemma {:induction false} StrptimeFormat(d: Date)
    requires IsPrintable(d)
    ensures Strptime(Format(d), Formats[0]) == Some(d)
  {
    var s := Format(d);
    FormatChars(d);
    var f := Formats[0];
    var a1 := Date(d.day, 1, 1900);
    var a2 := Date(d.day, d.month, 1900);
    assert MatchAt([], s, 10, d, 0) == Some((10, d));
    YearFirst(s, 6, d.year);
    MatchFirst(f[4..], s, 6, a2);
    assert f[4..][1..] == [];
    assert MatchAt(f[4..], s, 6, a2, 0) == Some((10, d));
    assert Pieces(Lit('/'), s, 5)[0] == Piece(6, 0);
    MatchFirst(f[3..], s, 5, a2);
    assert f[3..][1..] == f[4..];
    MonthFirst(s, 3, d.month);
    MatchFirst(f[2..], s, 3, a1);
    assert f[2..][1..] == f[3..];
    assert Pieces(Lit('/'), s, 2)[0] == Piece(3, 0);
    MatchFirst(f[1..], s, 2, a1);
    assert f[1..][1..] == f[2..];
    DayFirst(s, 0, d.day);
    MatchFirst(f, s, 0, Date(1, 1, 1900));
    assert MatchAt(f, s, 0, Date(1, 1, 1900), 0) == Some((10, d));
  }

  /**
   * A text that `strip()` leaves alone, too long for a null spelling and free of ASCII
   * spaces, is presented to the formats whole.
   */
  lemma WholeText(t: string)
    requires t != [] && !IsSpace(t[0]) && !IsSpace(t[|t| - 1]) && |t| > 4 && ' ' !in t
    ensures Presented(Text(t)) && DateText(Text(t)) == t
  {
    StripIdentity(t);
    assert Str(Text(t)) == t;
    assert |Lower(t)| > 4;
  }

  /** The printed form has no whitespace, so it is its own stripped text and its own date text. */
  lemma FormatIsDateText(d: Date)
    requires IsPrintable(d)
    ensures Presented(Text(Format(d))) && DateText(Text(Format(d))) == Format(d)
  {
    var s := Format(d);
    FormatChars(d);
    assert forall i :: 0 <= i < |s| ==> IsDigit(s[i]) || s[i] == '/';
    assert !IsSpace(s[0]) && !IsSpace(s[9]) && ' ' !in s;
    WholeText(s);
  }

  /**
   * Round trip: the SIRE form of a date whose year passes the guard is read back
   * as the same text at HIGH, by the first format.
   */
  lemma ParseFormatted(d: Date, cy: CurrentYear)
    requires IsPrintable(d) && 1900 <= d.year <= cy + 1
    ensures Parse(Text(Format(d)), cy) == Ok((Format(d), High))
  {
    var t := Format(d);
    FormatIsDateText(d);
    StrptimeFormat(d);
    ReadsAt(t, cy, 0, d);
    assert Parse(Text(t), cy) == Ok(ReadText(t, cy));
  }

  /** Parsing is idempotent on its output: a date it produced from text reads back unchanged at HIGH. */
  lemma ReparseOutput(c: Cell, cy: CurrentYear)
    requires Parse(c, cy).Ok? && Parse(c, cy).value.0 != ""
    requires c.Temporal? ==> 1900 <= c.date.year <= cy + 1
    ensures Parse(Text(Parse(c, cy).value.0), cy) == Ok((Parse(c, cy).value.0, High))
  {
    if c.Temporal? {
      ParseFormatted(c.date, cy);
    } else {
      var t := DateText(c);
      var d :| IsPrintable(d) && 1900 <= d.year <= cy + 1 && ReadText(t, cy).0 == Format(d);
      ParseFormatted(d, cy);
    }
  }

  /** The ambiguous `01/02/2024` is the first of February: day-first is tried before month-first. */
  lemma AmbiguousDayFirst(cy: CurrentYear)
    requires cy >= 2023
    ensures Parse(Text("01/02/2024"), cy) == Ok(("01/02/2024", High))
    ensures Strptime("01/02/2024", Formats[0]) == Some(Date(1, 2, 2024))
  {
    var d := Date(1, 2, 2024);
    FormatChars(d);
    assert Format(d) == "01/02/2024";
    ParseFormatted(d, cy);
    StrptimeFormat(d);
  }

  /** A word followed by a space and more text has that word as its date text. */
  lemma FirstWordIsDateText(w: string, time: string)
    requires IsWord(w) && time != [] && !IsSpace(time[|time| - 1])
    ensures Strip(w + " " + time) == w + " " + time
    ensures DateText(Text(w + " " + time)) == w
  {
    var u := w + " " + time;
    assert u[0] == w[0] && u[|u| - 1] == time[|time| - 1];
    StripIdentity(u);
    assert Str(Text(u)) == u;
    assert u[|w|] == ' ';
    assert u == w + (" " + time);
    WordsOfWordThen(w, " " + time);
  }

  /**
   * Text after the first space of a cell does not change how the cell is read,
   * unless the first word alone is a null spelling (then the whole text is not one).
   */
  lemma ParseFirstWord(w: string, time: string, cy: CurrentYear)
    requires IsWord(w) && time != [] && !IsSpace(time[|time| - 1]) && Lower(w) !in NullWords
    ensures Parse(Text(w + " " + time), cy) == Parse(Text(w), cy)
  {
    NoBlankIn(w);
    StripIdentity(w);
    assert Str(Text(w)) == w;
    assert DateText(Text(w)) == w;
    NotBlankText(w);
    var u := w + " " + time;
    assert Lower(u)[|w|] == ' ';
    assert forall n :: n in NullWords ==> ' ' !in n;
    assert Lower(u) !in NullWords;
    NotBlankText(u);
    FirstWordIsDateText(w, time);
  }

  lemma NoBlankIn(w: string)
    requires NoSpace(w)
    ensures ' ' !in w
  {
    assert forall i :: 0 <= i < |w| ==> !IsSpace(w[i]);
  }

  /** A stripped non-empty text that is no null spelling is presented to the formats. */
  lemma NotBlankText(u: string)
    requires Strip(u) == u && u != [] && Lower(u) !in NullWords
    ensures Presented(Text(u))
  {
    assert Str(Text(u)) == u;
  }

  /** A time of day after the SIRE form of a date is cut off before the formats are tried. */
  lemma TimeOfDayDropped(d: Date, time: string, cy: CurrentYear)
    requires IsPrintable(d) && IsWord(time)
    ensures Parse(Text(Format(d) + " " + time), cy) == Parse(Text(Format(d)), cy)
  {
    var s := Format(d);
    assert IsWord(s) by {
      FormatChars(d);
      assert forall i :: 0 <= i < |s| ==> IsDigit(s[i]) || s[i] == '/';
    }
    assert |Lower(s)| == 10;
    ParseFirstWord(s, time, cy);
  }

  /** The date inferred from an age is one `Parse` reads back at HIGH when its year passes the guard. */
  lemma InferredDateReadsBack(age: Cell, cy: CurrentYear)
    requires age.Int? && 0 <= age.n <= 120 && cy - age.n >= 1900
    ensures InferFromAge(age, cy).Ok?
    ensures Parse(Text(InferFromAge(age, cy).value.0), cy) == Ok((InferFromAge(age, cy).value.0, High))
  {
    var d := Date(15, 6, cy - age.n);
    var t := InferFromAge(age, cy).value.0;
    assert t == Format(d);
    ParseFormatted(d, cy);
    assert Parse(Text(t), cy) == Ok((t, High));
  }

  /** A single word that is no null spelling goes straight to the formats. */
  lemma ParseWord(t: string, cy: CurrentYear)
    requires IsWord(t) && Lower(t) !in NullWords
    ensures Parse(Text(t), cy) == Ok(ReadText(t, cy))
  {
    NoBlankIn(t);
    StripIdentity(t);
    assert Str(Text(t)) == t;
    assert DateText(Text(t)) == t;
    NotBlankText(t);
  }

  /** The first format that accepts decides the reading. */
  lemma ReadsAt(t: string, cy: CurrentYear, k: nat, d: Date)
    requires k < |Formats| && Strptime(t, Formats[k]) == Some(d) && 1900 <= d.year <= cy + 1
    requires forall j :: 0 <= j < k ==> !Accepted(t, cy, j)
    ensures IsPrintable(d) && ReadText(t, cy) == (Format(d), if k < 2 then High else Medium)
  {
    assert Accepted(t, cy, k);
  }

  lemma Dec31()
    ensures IsPrintable(Date(31, 12, 2024)) && Format(Date(31, 12, 2024)) == "31/12/2024"
  {
    FormatChars(Date(31, 12, 2024));
  }

  /** "12/31/2024" read day first: "12/3" leaves "1" where the second '/' belongs, and "1" leaves "2". */
  lemma UsDate0() ensures Strptime("12/31/2024", Formats[0]) == None
  {
    var s := "12/31/2024";
    var f := Formats[0];
    assert f == [Day, Lit('/'), Month, Lit('/'), Year];
    assert Pieces(Day, s, 0) == [Piece(2, 12), Piece(1, 1)];
    assert Pieces(Month, s, 3) == [Piece(4, 3)];
    assert MatchAt(f[3..], s, 4, Date(12, 3, 1900), 0) == None;
    assert MatchAt(f[2..], s, 3, Date(12, 1, 1900), 0) == None;
    assert MatchAt(f[1..], s, 2, Date(12, 1, 1900), 0) == None;
    assert MatchAt(f[1..], s, 1, Date(1, 1, 1900), 0) == None;
    assert MatchAt(f, s, 0, Date(1, 1, 1900), 1) == None;
  }

  lemma UsDate1() ensures Strptime("12/31/2024", Formats[1]) == None {}

  /** "12/31/2024" read with dashes: neither way of reading the day is followed by '-'. */
  lemma UsDate2() ensures Strptime("12/31/2024", Formats[2]) == None
  {
    var s := "12/31/2024";
    var f := Formats[2];
    assert f == [Day, Lit('-'), Month, Lit('-'), Year];
    assert Pieces(Day, s, 0) == [Piece(2, 12), Piece(1, 1)];
    assert MatchAt(f[1..], s, 2, Date(12, 1, 1900), 0) == None;
    assert MatchAt(f[1..], s, 1, Date(1, 1, 1900), 0) == None;
    assert MatchAt(f, s, 0, Date(1, 1, 1900), 1) == None;
  }
  lemma UsPieces()
    ensures Pieces(Month, "12/31/2024", 0)[0] == Piece(2, 12)
    ensures Pieces(Lit('/'), "12/31/2024", 2) == [Piece(3, 0)]
    ensures Pieces(Day, "12/31/2024", 3)[0] == Piece(5, 31)
    ensures Pieces(Lit('/'), "12/31/2024", 5) == [Piece(6, 0)]
  {
  }

  lemma UsYear()
    ensures Pieces(Year, "12/31/2024", 6) == [Piece(10, 2024)]
  {
    YearFirst("12/31/2024", 6, 2024);
  }

  lemma {:induction false} UsDate3()
    ensures Strptime("12/31/2024", Formats[3]) == Some(Date(31, 12, 2024))
  {
    var s := "12/31/2024";
    var f := Formats[3];
    var a1 := Date(1, 12, 1900);
    var a2 := Date(31, 12, 1900);
    var d := Date(31, 12, 2024);
    UsPieces();
    UsYear();
    assert f[4..][1..] == [] && f[3..][1..] == f[4..] && f[2..][1..] == f[3..] && f[1..][1..] == f[2..];
    assert FirstWay(f[4..], s, 6, a2) == Some((10, d));
    assert FirstWay(f[3..], s, 5, a2) == Some((10, d));
    assert FirstWay(f[2..], s, 3, a1) == Some((10, d));
    assert FirstWay(f[1..], s, 2, a1) == Some((10, d));
    assert FirstWay(f, s, 0, Date(1, 1, 1900)) == Some((10, d));
    FirstWayMatches(f, s, 0, Date(1, 1, 1900));
  }

  lemma UsDateWord()
    ensures IsWord("12/31/2024") && Lower("12/31/2024") !in NullWords
  {
    assert |Lower("12/31/2024")| == 10;
  }

  /** A month-first date is read by the fourth format, at MEDIUM. */
  lemma MonthFirstFallback(cy: CurrentYear)
    requires cy >= 2023
    ensures Parse(Text("12/31/2024"), cy) == Ok(("31/12/2024", Medium))
  {
    var t := "12/31/2024";
    UsDate0();
    UsDate1();
    UsDate2();
    UsDate3();
    Dec31();
    UsDateWord();
    ParseWord(t, cy);
    ReadsAt(t, cy, 3, Date(31, 12, 2024));
  }

  /** Each of the formats needs at least five characters. */
  lemma ShortTextRejected(t: string, cy: CurrentYear)
    requires |t| < 5
    ensures ReadText(t, cy) == ("", Low)
  {
    forall k | 0 <= k < |Formats|
      ensures !Accepted(t, cy, k)
    {
      ShortTextRejectedBy(t, k);
    }
  }

  lemma ShortTextRejectedBy(t: string, k: nat)
    requires |t| < 5 && k < |Formats|
    ensures Strptime(t, Formats[k]) == None
  {
    assert |Formats[k]| == 5;
    var m := MatchAt(Formats[k], t, 0, Date(1, 1, 1900), 0);
    assert m.None?;
  }

  /** A match of a format with a literal character finds that character in the text. */
  lemma {:induction false} LiteralNeeded(f: Pattern, s: string, i: nat, acc: Date, k: nat, c: char)
    requires Lit(c) in f && MatchAt(f, s, i, acc, k).Some?
    ensures c in s
    decreases |f|, |Pieces(f[0], s, i)| - k
  {
    var ps := Pieces(f[0], s, i);
    var next := MatchAt(f[1..], s, ps[k].end, Store(acc, f[0], ps[k].value), 0);
    if next.None? {
      LiteralNeeded(f, s, i, acc, k + 1, c);
    } else if f[0] == Lit(c) {
      assert s[i] == c;
    } else {
      assert Lit(c) in f[1..];
      LiteralNeeded(f[1..], s, ps[k].end, Store(acc, f[0], ps[k].value), 0, c);
    }
  }

  /** A text without `/`, `-` or `.` can only be read by the month-name formats. */
  lemma NoSeparatorRejected(t: string, k: nat)
    requires k < 6 && '/' !in t && '-' !in t && '.' !in t
    ensures Strptime(t, Formats[k]) == None
  {
    var f := Formats[k];
    assert Lit('/') in f || Lit('-') in f || Lit('.') in f;
    if MatchAt(f, t, 0, Date(1, 1, 1900), 0).Some? {
      if Lit('/') in f {
        LiteralNeeded(f, t, 0, Date(1, 1, 1900), 0, '/');
      } else if Lit('-') in f {
        LiteralNeeded(f, t, 0, Date(1, 1, 1900), 0, '-');
      } else {
        LiteralNeeded(f, t, 0, Date(1, 1, 1900), 0, '.');
      }
    }
  }

  /**
   * The month-name formats are out of reach for a text holding an ASCII space, such as
   * the `31 Dec 2024` they document: it is cut to `31` before the formats are tried,
   * and that reads as nothing.
   */
  lemma MonthNameCutOff(cy: CurrentYear)
    ensures Parse(Text("31 Dec 2024"), cy) == Ok(("", Low))
  {
    assert "31 Dec 2024" == "31" + " " + "Dec 2024";
    assert IsWord("31") && |Lower("31")| == 2 && Lower("31")[0] == '3';
    ParseFirstWord("31", "Dec 2024", cy);
    ParseWord("31", cy);
    ShortTextRejected("31", cy);
  }

  /** The name test of `%b`/`%B`: `n` matches at `i`, ignoring case. */
  predicate NameAt(n: string, s: string, i: nat) {
    i + |n| <= |s| && Lower(s[i..i + |n|]) == n
  }

  /** When only the `m`-th name matches, it is the one way `%b`/`%B` matches. */
  lemma {:induction false} OnlyName(names: seq<string>, k: nat, s: string, i: nat, m: nat)
    requires k <= m < |names| <= 12
    requires forall j :: 0 <= j < |names| ==> names[j] != ""
    requires NameAt(names[m], s, i)
    requires forall j :: k <= j < |names| && j != m ==> !NameAt(names[j], s, i)
    ensures NamePieces(names, k, s, i) == [Piece(i + |names[m]|, m + 1)] + NamePieces(names, m + 1, s, i)
    decreases m - k
  {
    if k < m {
      OnlyName(names, k + 1, s, i, m);
    }
  }

  lemma {:induction false} NoName(names: seq<string>, k: nat, s: string, i: nat)
    requires k <= |names| <= 12
    requires forall j :: 0 <= j < |names| ==> names[j] != ""
    requires forall j :: k <= j < |names| ==> !NameAt(names[j], s, i)
    ensures NamePieces(names, k, s, i) == []
    decreases |names| - k
  {
    if k < |names| {
      NoName(names, k + 1, s, i);
    }
  }

  /** `31 Dec 2024` with its words set apart by the whitespace `sep`. */
  function DecText(sep: char): string {
    "31" + [sep] + "Dec" + [sep] + "2024"
  }

  lemma DecAbbreviation(sep: char)
    requires IsSpace(sep)
    ensures Pieces(MonthAbbr, DecText(sep), 3) == [Piece(6, 12)]
  {
    var s := DecText(sep);
    assert s[3..6] == "Dec";
    assert Lower("Dec") == "dec";
    assert forall j :: 0 <= j < 12 ==> |Abbreviations[j]| == 3;
    assert forall j :: 0 <= j < 11 ==> Abbreviations[j] != "dec";
    OnlyName(Abbreviations, 0, s, 3, 11);
    NoName(Abbreviations, 12, s, 3);
  }

  lemma DecPieces(sep: char)
    requires IsSpace(sep)
    ensures Pieces(Day, DecText(sep), 0)[0] == Piece(2, 31)
    ensures Pieces(Gap, DecText(sep), 2) == [Piece(3, 0)]
    ensures Pieces(Gap, DecText(sep), 6) == [Piece(7, 0)]
  {
    var s := DecText(sep);
    assert s[2] == sep && s[6] == sep && s[3] == 'D' && s[7] == '2';
    assert SpaceRun(s, 3) == 0 && SpaceRun(s, 7) == 0;
    assert SpaceRun(s, 2) == 1 && SpaceRun(s, 6) == 1;
  }

  lemma DecYear(sep: char)
    requires IsSpace(sep)
    ensures Pieces(Year, DecText(sep), 7) == [Piece(11, 2024)]
  {
    YearFirst(DecText(sep), 7, 2024);
  }

  /** `strptime("31 Dec 2024", "%d %b %Y")` is the last day of 2024, with any whitespace between the words. */
  lemma {:induction false} StrptimeMonthAbbreviation(sep: char)
    requires IsSpace(sep)
    ensures Strptime(DecText(sep), Formats[6]) == Some(Date(31, 12, 2024))
  {
    var s := DecText(sep);
    var f := Formats[6];
    var d := Date(31, 12, 2024);
    var a1 := Date(31, 1, 1900);
    var a2 := Date(31, 12, 1900);
    DecPieces(sep);
    DecAbbreviation(sep);
    DecYear(sep);
    assert f[4..][1..] == [];
    MatchFirst(f[4..], s, 7, a2);
    assert MatchAt(f[4..], s, 7, a2, 0) == Some((11, d));
    assert f[3..][1..] == f[4..];
    MatchFirst(f[3..], s, 6, a2);
    assert f[2..][1..] == f[3..];
    MatchFirst(f[2..], s, 3, a1);
    assert f[1..][1..] == f[2..];
    MatchFirst(f[1..], s, 2, a1);
    MatchFirst(f, s, 0, Date(1, 1, 1900));
    assert MatchAt(f, s, 0, Date(1, 1, 1900), 0) == Some((11, d));
  }

  /** With the whole text tried first, `31 Dec 2024` is read by `%d %b %Y`, at MEDIUM. */
  lemma MonthNameRead(cy: CurrentYear)
    requires cy >= 2023
    ensures ParseCorrected(Text("31 Dec 2024"), cy) == Ok(("31/12/2024", Medium))
  {
    var t := "31 Dec 2024";
    assert DecText(' ') == t;
    assert Str(Text(t)) == t;
    assert |Lower(t)| == 11;
    StripIdentity(t);
    NotBlankText(t);
    MonthAbbreviationText(' ', cy);
  }

  /**
   * Only a text holding an ASCII space is cut: with tabs between the words,
   * `31 Dec 2024` reaches `%d %b %Y` as written and is read at MEDIUM.
   */
  lemma MonthNameTabRead(cy: CurrentYear)
    requires cy >= 2023
    ensures Parse(Text("31\tDec\t2024"), cy) == Ok(("31/12/2024", Medium))
  {
    var t := "31\tDec\t2024";
    assert DecText('\t') == t;
    assert !IsSpace(t[0]) && !IsSpace(t[|t| - 1]) && |t| == 11;
    assert forall i :: 0 <= i < |t| ==> t[i] != ' ';
    WholeText(t);
    MonthAbbreviationText('\t', cy);
  }

  /** Of the formats, `%d %b %Y` is the first to read `31 Dec 2024`, with any whitespace between the words. */
  lemma MonthAbbreviationText(sep: char, cy: CurrentYear)
    requires IsSpace(sep) && cy >= 2023
    ensures ReadText(DecText(sep), cy) == ("31/12/2024", Medium)
  {
    var t := DecText(sep);
    assert '/' !in t && '-' !in t && '.' !in t;
    forall k | 0 <= k < 6
      ensures !Accepted(t, cy, k)
    {
      NoSeparatorRejected(t, k);
    }
    StrptimeMonthAbbreviation(sep);
    Dec31();
    ReadsAt(t, cy, 6, Date(31, 12, 2024));
  }

  // ---------------------------------------------------------------- line safety

  /** A dd/mm/yyyy text holds no tab. */
  lemma FormatNoTab(d: Date)
    requires IsPrintable(d)
    ensures '\t' !in Format(d)
  {
    FormatChars(d);
  }

  /** A reading is empty or dd/mm/yyyy, so it holds no tab. */
  lemma ReadTextNoTab(t: string, cy: CurrentYear)
    ensures '\t' !in ReadText(t, cy).0
  {
    var r := ReadText(t, cy);
    if r.0 != "" {
      var d :| IsPrintable(d) && 1900 <= d.year <= cy + 1 && r.0 == Format(d);
      FormatNoTab(d);
    }
  }

  /** Whatever a cell parses to, as written or corrected, holds no tab. */
  lemma ParsedNoTab(c: Cell, cy: CurrentYear)
    ensures Parse(c, cy).Ok? ==> '\t' !in Parse(c, cy).value.0
    ensures ParseCorrected(c, cy).Ok? ==> '\t' !in ParseCorrected(c, cy).value.0
  {
    if c.Temporal? {
      FormatNoTab(c.date);
    }
    ReadTextNoTab(Strip(Str(c)), cy);
    ReadTextNoTab(DateText(c), cy);
  }
}
