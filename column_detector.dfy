/**
 * `ColumnDetector` (sire_converter.py lines 608-855): maps the columns of an arbitrary
 * guest table onto the canonical SIRE fields, by the similarity of the column names to
 * fixed name lists and, for two critical fields, by the shape of the column's content.
 */
module ColumnDetector {
  import opened Wrappers
  import opened Strings
  import opened Cells
  import opened Records

  /** The keys of `FIELD_PATTERNS`. */
  datatype Field =
    | TipoDocumento | NumeroDocumento | Nombres | PrimerApellido | NombreCompleto
    | Nacionalidad | FechaNacimiento | FechaCheckin | FechaCheckout | Procedencia | Destino

  /** `FIELD_PATTERNS` in declaration order (lines 614-700). */
  const Fields: seq<Field> := [
    TipoDocumento, NumeroDocumento, Nombres, PrimerApellido, NombreCompleto, Nacionalidad,
    FechaNacimiento, FechaCheckin, FechaCheckout, Procedencia, Destino
  ]

  /** The position of a field in `Fields`. */
  function Ordinal(f: Field): (i: nat)
    ensures i < |Fields| && Fields[i] == f
  {
    match f
    case TipoDocumento => 0
    case NumeroDocumento => 1
    case Nombres => 2
    case PrimerApellido => 3
    case NombreCompleto => 4
    case Nacionalidad => 5
    case FechaNacimiento => 6
    case FechaCheckin => 7
    case FechaCheckout => 8
    case Procedencia => 9
    case Destino => 10
  }

  /** The `names` list of each field (lines 615-700), in the order of `Fields`. */
  const NameLists: seq<seq<string>> := [
    // TipoDocumento
    [
      "tipo de documento", "document type", "tipo documento", "doc type", "id type",
      "tipo de id", "tipo id"],
    // NumeroDocumento
    [
      "document number", "numero documento", "número de documento",
      "numero de identificacion", "número de identificación", "passport number",
      "passport no", "id number", "doc number", "document no", "numero del documento",
      "número del documento", "no. documento", "nro documento", "n documento",
      "num documento", "numero id", "no identificacion", "número identificación"],
    // Nombres
    [
      "name", "first name", "nombres", "given name", "firstname", "given names", "nombre",
      "primer nombre"],
    // PrimerApellido
    [
      "surname", "last name", "apellido", "primer apellido", "family name", "lastname",
      "apellidos"],
    // NombreCompleto
    [
      "guest name", "nombre completo", "full name", "guest", "huesped", "nombre y apellido",
      "huésped", "cliente"],
    // Nacionalidad
    [
      "country", "nationality", "nacionalidad", "pais", "país", "citizen", "citizenship",
      "nation"],
    // FechaNacimiento
    [
      "birthday", "birth date", "fecha nacimiento", "date of birth", "birthdate", "dob",
      "nacimiento", "born", "cumpleaños", "fecha de nacimiento", "f. nacimiento"],
    // FechaCheckin
    [
      "arrival date", "arrival", "check-in", "checkin", "check in", "llegada", "entrada",
      "fecha entrada", "fecha llegada", "fecha de llegada", "ingreso"],
    // FechaCheckout
    [
      "departure date", "departure", "check-out", "checkout", "check out", "salida",
      "fecha salida", "fecha checkout", "fecha de salida", "egreso"],
    // Procedencia
    [
      "pais de procedencia", "country of origin", "origin country", "procedencia", "from",
      "origen", "viene de"],
    // Destino
    [
      "pais de destino", "destination country", "destino", "destination", "to", "va a",
      "hacia"]
  ]

  /** The `names` list of a field. */
  function Names(f: Field): seq<string> {
    NameLists[Ordinal(f)]
  }

  /** `config.get('priority', 99)`: only the two document fields declare one (lines 623, 642). */
  function Priority(f: Field): nat {
    if f == TipoDocumento then 1 else if f == NumeroDocumento then 2 else 99
  }

  /** The fields of `fs` whose priority is `p`, in their order in `fs`. */
  function WithPriority(fs: seq<Field>, p: nat): seq<Field> {
    if fs == [] then []
    else (if Priority(fs[0]) == p then [fs[0]] else []) + WithPriority(fs[1..], p)
  }

  /**
   * `sorted(FIELD_PATTERNS.items(), key=priority)` (lines 773-776).  Python's sort is
   * stable and the only priorities are 1, 2 and 99, so the sorted list is the fields of
   * each priority in declaration order, lowest priority first.
   */
  const SortedFields: seq<Field> :=
    WithPriority(Fields, 1) + WithPriority(Fields, 2) + WithPriority(Fields, 99)

  /** The fields the third pass examines, in the order of line 816. */
  const CriticalFields: seq<Field> := [NumeroDocumento, FechaNacimiento, Nacionalidad]

  // ---------------------------------------------------------------- name similarity

  function MaxReal(a: real, b: real): (m: real)
    ensures m >= a && m >= b && (m == a || m == b)
  {
    if a >= b then a else b
  }

  /** `a / b` in true division. */
  function Ratio(a: nat, b: nat): (r: real)
    requires b > 0
    ensures 0.0 <= r
    ensures a <= b ==> r <= 1.0
    ensures a == b ==> r == 1.0
  {
    RatioBounds(a, b);
    (a as real) / (b as real)
  }

  lemma RatioBounds(a: nat, b: nat)
    requires b > 0
    ensures 0.0 <= (a as real) / (b as real)
    ensures a <= b ==> (a as real) / (b as real) <= 1.0
    ensures a == b ==> (a as real) / (b as real) == 1.0
  {
    var x, y := a as real, b as real;
    var q := x / y;
    assert q * y == x;
    assert (q - 1.0) * y == x - y;
    if a == b {
      assert x == y;
      assert q == y / y == 1.0;
    }
  }

  /** The distinct whitespace-separated words of `s`: `set(s.split())`. */
  function WordSet(s: string): set<string> {
    set w | w in Words(s)
  }

  /**
   * `_similarity` (lines 708-721): 1 for texts equal once lower-cased, otherwise the
   * number of shared words over the larger word count, and 0 when either has no word.
   */
  function Similarity(s1: string, s2: string): (r: real)
    ensures 0.0 <= r <= 1.0
    ensures Lower(s1) == Lower(s2) ==> r == 1.0
  {
    var a, b := Lower(s1), Lower(s2);
    if a == b then 1.0
    else
      var w1, w2 := WordSet(a), WordSet(b);
      if w1 == {} || w2 == {} then 0.0
      else
        SubsetCard(w1 * w2, w1);
        Ratio(|w1 * w2|, if |w1| >= |w2| then |w1| else |w2|)
  }

  /**
   * What one pattern contributes to `_fuzzy_match` (lines 740-747): when one text occurs
   * in the other, the pattern's share of the longer length plus 0.3; and the word
   * similarity.  The larger of the two counts.
   */
  function Score(col: string, p: string): (r: real)
    requires col != p
    ensures 0.0 <= r <= 1.3
    ensures Similarity(col, p) <= r
  {
    var containment :=
      if Contains(col, p) || Contains(p, col) then
        Ratio(|p|, if |col| >= |p| then |col| else |p|) + 0.3
      else 0.0;
    MaxReal(containment, Similarity(col, p))
  }

  /** The best score over the first `n` patterns of `ps`, starting from 0 (the loop of lines 734-747). */
  function Best(col: string, ps: seq<string>, n: nat): (r: real)
    requires n <= |ps| && col !in ps
    ensures 0.0 <= r <= 1.3
    ensures forall i :: 0 <= i < n ==> Score(col, ps[i]) <= r
    ensures r == 0.0 || exists i :: 0 <= i < n && r == Score(col, ps[i])
  {
    if n == 0 then 0.0 else MaxReal(Best(col, ps, n - 1), Score(col, ps[n - 1]))
  }

  /**
   * `_fuzzy_match` (lines 723-749): a lower-cased, stripped column name equal to a
   * pattern scores 1; otherwise the best score over all patterns.  It matches when the
   * score reaches the threshold.
   */
  function FuzzyMatch(column: string, patterns: seq<string>, threshold: real): (r: (bool, real))
    ensures r.0 <==> Strip(Lower(column)) in patterns || r.1 >= threshold
    ensures 0.0 <= r.1 <= 1.3
    ensures Strip(Lower(column)) in patterns ==> r.1 == 1.0
    ensures Strip(Lower(column)) !in patterns ==>
      (forall i :: 0 <= i < |patterns| ==> Score(Strip(Lower(column)), patterns[i]) <= r.1)
      && (r.1 == 0.0 || exists i :: 0 <= i < |patterns| && r.1 == Score(Strip(Lower(column)), patterns[i]))
  {
    var col := Strip(Lower(column));
    if col in patterns then (true, 1.0)
    else
      var best := Best(col, patterns, |patterns|);
      (best >= threshold, best)
  }

  /**
   * `_should_exclude_column` (lines 751-760): only `numero_documento` has exclusion
   * keywords, the single keyword "tipo".
   */
  predicate ShouldExclude(column: string, f: Field) {
    f == NumeroDocumento && Contains(Lower(column), "tipo")
  }

  // ---------------------------------------------------------------- content patterns

  predicate IsAlnum(c: char) { IsAsciiLetter(c) || IsDigit(c) }

  /** `len` characters from position `from` on, all digits. */
  predicate DigitRun(v: string, from: nat, len: nat) {
    from + len <= |v| && forall i :: from <= i < from + len ==> IsDigit(v[i])
  }

  /** A date separator, `[/-]`, at position `i`. */
  predicate SepAt(v: string, i: nat) {
    i < |v| && (v[i] == '/' || v[i] == '-')
  }

  /** `k` letters then six to nine digits and nothing else. */
  predicate LettersThenDigits(v: string, k: nat) {
    k <= |v| && 6 <= |v| - k <= 9 && (forall i :: 0 <= i < k ==> IsAsciiLetter(v[i]))
    && DigitRun(v, k, |v| - k)
  }

  /** `^[A-Z]{1,2}\d{6,9}$`, case-insensitively (line 636). */
  predicate PassportNumber(v: string) {
    LettersThenDigits(v, 1) || LettersThenDigits(v, 2)
  }

  /** `^\d{8,12}$` (line 637). */
  predicate DigitsNumber(v: string) {
    8 <= |v| <= 12 && AllDigits(v)
  }

  /** `^[A-Z0-9]{6,12}$`, case-insensitively (line 638). */
  predicate AlphanumericNumber(v: string) {
    6 <= |v| <= 12 && forall i :: 0 <= i < |v| ==> IsAlnum(v[i])
  }

  /** `\d{1,2}[/-]\d{1,2}[/-]\d{2,4}` at the start of `v`, with groups of `a` and `b` digits. */
  predicate DayFirstAt(v: string, a: nat, b: nat) {
    DigitRun(v, 0, a) && SepAt(v, a) && DigitRun(v, a + 1, b) && SepAt(v, a + 1 + b)
    && DigitRun(v, a + b + 2, 2)
  }

  /** `\d{1,2}[/-]\d{1,2}[/-]\d{2,4}` matched at the start (line 675). */
  predicate DayFirstDate(v: string) {
    DayFirstAt(v, 1, 1) || DayFirstAt(v, 1, 2) || DayFirstAt(v, 2, 1) || DayFirstAt(v, 2, 2)
  }

  /** `\d{4}[/-]\d{1,2}[/-]\d{1,2}` at the start, with a middle group of `b` digits. */
  predicate YearFirstAt(v: string, b: nat) {
    DigitRun(v, 0, 4) && SepAt(v, 4) && DigitRun(v, 5, b) && SepAt(v, 5 + b) && DigitRun(v, 6 + b, 1)
  }

  /** `\d{4}[/-]\d{1,2}[/-]\d{1,2}` matched at the start (line 676). */
  predicate YearFirstDate(v: string) {
    YearFirstAt(v, 1) || YearFirstAt(v, 2)
  }

  /** The fields with a `content_patterns` list. */
  predicate HasContentPatterns(f: Field) {
    f == TipoDocumento || f == NumeroDocumento || f == FechaNacimiento
  }

  /**
   * `re.match(pattern, value.strip(), re.IGNORECASE)` for some content pattern of a
   * critical field (lines 838-843).
   */
  predicate ContentMatch(f: Field, value: string) {
    var v := Strip(value);
    if f == NumeroDocumento then PassportNumber(v) || DigitsNumber(v) || AlphanumericNumber(v)
    else if f == FechaNacimiento then DayFirstDate(v) || YearFirstDate(v)
    else false
  }

  /** The number of sample values some content pattern of `f` matches. */
  function ContentMatches(f: Field, sample: seq<string>): (n: nat)
    ensures n <= |sample|
  {
    if sample == [] then 0
    else ContentMatches(f, sample[..|sample| - 1]) + (if ContentMatch(f, sample[|sample| - 1]) then 1 else 0)
  }

  /** `matches >= len(sample) * 0.5` (line 849). */
  predicate ContentClaims(f: Field, sample: seq<string>) {
    2 * ContentMatches(f, sample) >= |sample|
  }

  /** The non-missing cells of a column as text: `dropna().astype(str)`. */
  function Present(cs: seq<Cell>): (r: seq<string>)
    ensures |r| <= |cs|
  {
    if cs == [] then [] else (if IsMissing(cs[0]) then [] else [Str(cs[0])]) + Present(cs[1..])
  }

  /** `df[col].dropna().head(10).astype(str)` (line 835). */
  function Sample(ds: Dataset, col: string): (r: seq<string>)
    ensures |r| <= 10
  {
    var p := Present(ColumnCells(ds, col));
    if |p| <= 10 then p else p[..10]
  }

  // ---------------------------------------------------------------- the three passes

  /** The detections so far and the columns already taken (`detected`, `used_columns`). */
  datatype Claims = Claims(detected: map<Field, (string, Confidence)>, used: set<string>)

  /**
   * The test a free column must pass: a name score of at least 0.8 in the first pass
   * (line 788), a fuzzy match at threshold 0.4 in the second (lines 804-806), enough
   * matching sample values in the third (line 849).
   */
  predicate Accepts(pass: nat, f: Field, ds: Dataset, col: string) {
    if pass == 1 then FuzzyMatch(col, Names(f), 0.5).1 >= 0.8
    else if pass == 2 then FuzzyMatch(col, Names(f), 0.4).0
    else ContentClaims(f, Sample(ds, col))
  }

  /** A column the pass may give to `f`: not taken, not excluded, and accepted. */
  predicate Free(pass: nat, f: Field, ds: Dataset, used: set<string>, col: string) {
    col !in used && !ShouldExclude(col, f) && Accepts(pass, f, ds, col)
  }

  /** The first column, from position `j` on, that the pass may give to `f`. */
  function FirstFree(pass: nat, f: Field, ds: Dataset, used: set<string>, j: nat): (r: Option<nat>)
    requires j <= |ds.columns|
    ensures r.Some? ==> j <= r.value < |ds.columns| && Free(pass, f, ds, used, ds.columns[r.value])
    ensures r.Some? ==> forall k :: j <= k < r.value ==> !Free(pass, f, ds, used, ds.columns[k])
    ensures r.None? ==> forall k :: j <= k < |ds.columns| ==> !Free(pass, f, ds, used, ds.columns[k])
    decreases |ds.columns| - j
  {
    if j == |ds.columns| then None
    else if Free(pass, f, ds, used, ds.columns[j]) then Some(j)
    else FirstFree(pass, f, ds, used, j + 1)
  }

  /** The confidence each pass assigns: HIGH, MEDIUM, LOW. */
  function PassConfidence(pass: nat): Confidence {
    if pass == 1 then High else if pass == 2 then Medium else Low
  }

  /**
   * One field in one pass: the second and third passes skip a detected field, the third
   * also a field without content patterns; otherwise the first free column is claimed.
   */
  function Step(pass: nat, f: Field, ds: Dataset, s: Claims): Claims {
    if pass >= 2 && f in s.detected then s
    else if pass >= 3 && !HasContentPatterns(f) then s
    else match FirstFree(pass, f, ds, s.used, 0)
      case Some(j) => Claims(s.detected[f := (ds.columns[j], PassConfidence(pass))], s.used + {ds.columns[j]})
      case None => s
  }

  /** One pass over the fields `fs`, in order. */
  function RunPass(pass: nat, fs: seq<Field>, ds: Dataset, s: Claims): Claims {
    if fs == [] then s else Step(pass, fs[|fs| - 1], ds, RunPass(pass, fs[..|fs| - 1], ds, s))
  }

  /** `detect_columns` (lines 762-855) as a function of the dataset. */
  function Detect(ds: Dataset): map<Field, (string, Confidence)> {
    var first := RunPass(1, SortedFields, ds, Claims(map[], {}));
    var second := RunPass(2, SortedFields, ds, first);
    RunPass(3, CriticalFields, ds, second).detected
  }

  // ---------------------------------------------------------------- the detector

  /** The inner loop of each pass: the first column the pass may give to `f`. */
  method FindColumn(pass: nat, f: Field, ds: Dataset, used: set<string>) returns (r: Option<nat>)
    requires 1 <= pass <= 3
    ensures r == FirstFree(pass, f, ds, used, 0)
  {
    var j := 0;
    while j < |ds.columns|
      invariant 0 <= j <= |ds.columns|
      invariant FirstFree(pass, f, ds, used, 0) == FirstFree(pass, f, ds, used, j)
    {
      var col := ds.columns[j];
      if col !in used && !ShouldExclude(col, f) {
        var accepted := AcceptsColumn(pass, f, ds, col);
        if accepted {
          FirstFreeHits(pass, f, ds, used, j);
          return Some(j);
        }
      }
      FirstFreeSkips(pass, f, ds, used, j);
      j := j + 1;
    }
    return None;
  }

  /** A column the pass may give to `f` ends the search. */
  lemma FirstFreeHits(pass: nat, f: Field, ds: Dataset, used: set<string>, j: nat)
    requires j < |ds.columns|
    requires ds.columns[j] !in used && !ShouldExclude(ds.columns[j], f) && Accepts(pass, f, ds, ds.columns[j])
    ensures FirstFree(pass, f, ds, used, j) == Some(j)
  {
  }

  /** A column the pass may not give to `f` is passed over. */
  lemma FirstFreeSkips(pass: nat, f: Field, ds: Dataset, used: set<string>, j: nat)
    requires j < |ds.columns|
    requires ds.columns[j] in used || ShouldExclude(ds.columns[j], f) || !Accepts(pass, f, ds, ds.columns[j])
    ensures FirstFree(pass, f, ds, used, j) == FirstFree(pass, f, ds, used, j + 1)
  {
  }

  /** The test of one pass on one column (lines 786-789, 804-806 and 835-849). */
  method AcceptsColumn(pass: nat, f: Field, ds: Dataset, col: string) returns (accepted: bool)
    requires 1 <= pass <= 3
    ensures accepted == Accepts(pass, f, ds, col)
  {
    if pass == 1 {
      var fuzzy := FuzzyMatch(col, Names(f), 0.5);
      accepted := fuzzy.1 >= 0.8;
    } else if pass == 2 {
      var fuzzy := FuzzyMatch(col, Names(f), 0.4);
      accepted := fuzzy.0;
    } else {
      var sample := Sample(ds, col);
      var matches := CountMatches(f, sample);
      accepted := 2 * matches >= |sample|;
    }
  }

  /** The loop of lines 838-844: how many sample values some content pattern matches. */
  method CountMatches(f: Field, sample: seq<string>) returns (matches: nat)
    ensures matches == ContentMatches(f, sample)
  {
    matches := 0;
    var k := 0;
    while k < |sample|
      invariant 0 <= k <= |sample|
      invariant matches == ContentMatches(f, sample[..k])
    {
      assert sample[..k + 1][..k] == sample[..k];
      if ContentMatch(f, sample[k]) {
        matches := matches + 1;
      }
      k := k + 1;
    }
    assert sample[..k] == sample;
  }

  /** One pass of `detect_columns` over `fields`, growing `detected` and `used`. */
  method Pass(pass: nat, fields: seq<Field>, ds: Dataset, detected0: map<Field, (string, Confidence)>,
              used0: set<string>)
    returns (detected: map<Field, (string, Confidence)>, used: set<string>)
    requires 1 <= pass <= 3
    ensures Claims(detected, used) == RunPass(pass, fields, ds, Claims(detected0, used0))
  {
    detected, used := detected0, used0;
    var i := 0;
    while i < |fields|
      invariant 0 <= i <= |fields|
      invariant Claims(detected, used) == RunPass(pass, fields[..i], ds, Claims(detected0, used0))
    {
      var f := fields[i];
      assert fields[..i + 1][..i] == fields[..i];
      if (pass >= 2 && f in detected) || (pass >= 3 && !HasContentPatterns(f)) {
      } else {
        var r := FindColumn(pass, f, ds, used);
        if r.Some? {
          detected := detected[f := (ds.columns[r.value], PassConfidence(pass))];
          used := used + {ds.columns[r.value]};
        }
      }
      i := i + 1;
    }
    assert fields[..i] == fields;
  }

  /** `ColumnDetector.detect_columns` (lines 762-855). */
  method DetectColumns(ds: Dataset) returns (detected: map<Field, (string, Confidence)>)
    ensures detected == Detect(ds)
  {
    var used: set<string>;
    detected, used := Pass(1, SortedFields, ds, map[], {});
    detected, used := Pass(2, SortedFields, ds, detected, used);
    detected, used := Pass(3, CriticalFields, ds, detected, used);
  }

  // ---------------------------------------------------------------- properties

  /** Every subset is at most as large as its superset. */
  lemma {:induction false} SubsetCard<T>(a: set<T>, b: set<T>)
    requires a <= b
    ensures |a| <= |b|
    decreases a
  {
    if a != {} {
      var x :| x in a;
      SubsetCard(a - {x}, b - {x});
    }
  }

  lemma {:induction false} WithPriorityAppend(a: seq<Field>, b: seq<Field>, p: nat)
    ensures WithPriority(a + b, p) == WithPriority(a, p) + WithPriority(b, p)
    decreases |a|
  {
    if a != [] {
      var h := if Priority(a[0]) == p then [a[0]] else [];
      assert (a + b)[0] == a[0];
      assert (a + b)[1..] == a[1..] + b;
      assert WithPriority(a + b, p) == h + WithPriority(a[1..] + b, p);
      WithPriorityAppend(a[1..], b, p);
      assert WithPriority(a, p) == h + WithPriority(a[1..], p);
      assert h + (WithPriority(a[1..], p) + WithPriority(b, p))
          == (h + WithPriority(a[1..], p)) + WithPriority(b, p);
    } else {
      assert a + b == b;
    }
  }

  lemma {:induction false} WithPriorityAll(fs: seq<Field>, p: nat)
    requires forall i :: 0 <= i < |fs| ==> Priority(fs[i]) == p
    ensures WithPriority(fs, p) == fs
    decreases |fs|
  {
    if fs != [] {
      WithPriorityAll(fs[1..], p);
    }
  }

  lemma {:induction false} WithPriorityNone(fs: seq<Field>, p: nat)
    requires forall i :: 0 <= i < |fs| ==> Priority(fs[i]) != p
    ensures WithPriority(fs, p) == []
    decreases |fs|
  {
    if fs != [] {
      WithPriorityNone(fs[1..], p);
    }
  }

  /** After the two document fields, every field has the default priority. */
  lemma FieldsByPriority()
    ensures Fields == [TipoDocumento, NumeroDocumento] + Fields[2..]
    ensures forall i :: 2 <= i < |Fields| ==> Priority(Fields[i]) == 99
  {
  }

  /**
   * Selecting one priority class from the two document fields followed by fields of the
   * default priority.
   */
  lemma PriorityClass(rest: seq<Field>, p: nat)
    requires forall i :: 0 <= i < |rest| ==> Priority(rest[i]) == 99
    ensures WithPriority([TipoDocumento, NumeroDocumento] + rest, p)
      == (if p == 1 then [TipoDocumento] else if p == 2 then [NumeroDocumento] else [])
         + (if p == 99 then rest else [])
  {
    WithPriorityAppend([TipoDocumento, NumeroDocumento], rest, p);
    if p == 99 {
      WithPriorityAll(rest, p);
    } else {
      WithPriorityNone(rest, p);
    }
  }

  /** The sort leaves the declaration order: `tipo_documento` first, `numero_documento` second. */
  lemma SortedFieldsInOrder()
    ensures SortedFields == Fields
    ensures SortedFields[0] == TipoDocumento && SortedFields[1] == NumeroDocumento
  {
    FieldsByPriority();
    StableByPriority(Fields[2..]);
  }

  /** The two document fields followed by default-priority fields come out of the sort unchanged. */
  lemma StableByPriority(rest: seq<Field>)
    requires forall i :: 0 <= i < |rest| ==> Priority(rest[i]) == 99
    ensures var fs := [TipoDocumento, NumeroDocumento] + rest;
      WithPriority(fs, 1) + WithPriority(fs, 2) + WithPriority(fs, 99) == fs
  {
    PriorityClass(rest, 1);
    PriorityClass(rest, 2);
    PriorityClass(rest, 99);
    assert [TipoDocumento] + [NumeroDocumento] + rest == [TipoDocumento, NumeroDocumento] + rest;
  }

  /** Word similarity does not depend on the order of its arguments. */
  lemma SimilaritySymmetric(s1: string, s2: string)
    ensures Similarity(s1, s2) == Similarity(s2, s1)
  {
    var w1, w2 := WordSet(Lower(s1)), WordSet(Lower(s2));
    assert w1 * w2 == w2 * w1;
  }

  /** A subset as large as its superset is the superset. */
  lemma SubsetCardEqual<T>(a: set<T>, b: set<T>)
    requires a <= b && |a| == |b|
    ensures a == b
  {
    assert b == a + (b - a);
    assert |b - a| == 0;
  }

  /**
   * Two different texts are fully similar exactly when they have the same non-empty set
   * of words once lower-cased ("Check In" and "in check").
   */
  lemma SimilarityOne(s1: string, s2: string)
    requires Lower(s1) != Lower(s2)
    ensures Similarity(s1, s2) == 1.0 <==>
      WordSet(Lower(s1)) != {} && WordSet(Lower(s1)) == WordSet(Lower(s2))
  {
    var w1, w2 := WordSet(Lower(s1)), WordSet(Lower(s2));
    if w1 != {} && w2 != {} {
      var c := w1 * w2;
      var m := if |w1| >= |w2| then |w1| else |w2|;
      if w1 == w2 {
        assert c == w1;
      }
      SubsetCard(c, w1);
      SubsetCard(c, w2);
      if Similarity(s1, s2) == 1.0 {
        RatioOne(|c|, m);
        SubsetCardEqual(c, w1);
        SubsetCardEqual(c, w2);
      }
    }
  }

  /** A ratio of 1 has equal terms. */
  lemma RatioOne(a: nat, b: nat)
    requires b > 0 && Ratio(a, b) == 1.0
    ensures a == b
  {
    var q := (a as real) / (b as real);
    assert q * (b as real) == a as real;
  }

  /**
   * A column name that occurs inside one of the patterns, without being one, scores 1.3:
   * the pattern's share of the longer text is 1 and the bonus of 0.3 is added to it
   * (lines 741-743).  So "name" against "guest name", or an empty name against anything,
   * is a first-pass hit.
   */
  lemma ContainedNameScoresOnePointThree(column: string, patterns: seq<string>, threshold: real, i: nat)
    requires i < |patterns| && Strip(Lower(column)) !in patterns
    requires Contains(patterns[i], Strip(Lower(column)))
    ensures FuzzyMatch(column, patterns, threshold).1 == 1.3
  {
    var col, p := Strip(Lower(column)), patterns[i];
    ContainsShorter(p, col);
    assert Ratio(|p|, if |col| >= |p| then |col| else |p|) == 1.0;
    assert Score(col, p) >= 1.3;
  }

  /** The three document-number patterns together accept exactly six to twelve letters or digits. */
  lemma DocumentPatternsCollapse(v: string)
    ensures PassportNumber(v) || DigitsNumber(v) || AlphanumericNumber(v) <==> AlphanumericNumber(v)
  {
    if LettersThenDigits(v, 1) || LettersThenDigits(v, 2) {
      var k := if LettersThenDigits(v, 1) then 1 else 2;
      forall i | 0 <= i < |v|
        ensures IsAlnum(v[i])
      {
        if i >= k {
          assert k <= i < k + (|v| - k);
        }
      }
    }
  }

  /** A column whose cells are all missing has an empty sample. */
  lemma {:induction false} AllMissingPresent(cs: seq<Cell>)
    requires forall i :: 0 <= i < |cs| ==> IsMissing(cs[i])
    ensures Present(cs) == []
  {
    if cs != [] {
      AllMissingPresent(cs[1..]);
    }
  }

  /**
   * An empty sample satisfies `0 >= 0` (line 849): in the third pass, a field with content
   * patterns claims the first free, non-excluded column whose cells are all missing.
   */
  lemma EmptyColumnIsClaimed(f: Field, ds: Dataset, s: Claims, j: nat)
    requires f == NumeroDocumento || f == FechaNacimiento
    requires f !in s.detected
    requires j < |ds.columns| && ds.columns[j] !in s.used && !ShouldExclude(ds.columns[j], f)
    requires forall i :: 0 <= i < |ds.rows| ==> IsMissing(ColumnCells(ds, ds.columns[j])[i])
    requires forall k :: 0 <= k < j ==> !Free(3, f, ds, s.used, ds.columns[k])
    ensures f in Step(3, f, ds, s).detected && Step(3, f, ds, s).detected[f] == (ds.columns[j], Low)
  {
    var cs := ColumnCells(ds, ds.columns[j]);
    assert forall i :: 0 <= i < |cs| ==> IsMissing(cs[i]);
    AllMissingPresent(cs);
    assert Sample(ds, ds.columns[j]) == [];
    assert Free(3, f, ds, s.used, ds.columns[j]);
    var r := FirstFree(3, f, ds, s.used, 0);
    assert r == Some(j);
  }

  // ---------------------------------------------------------------- soundness of detection

  /** Why a field holds a column: the test of the pass that assigned it. */
  predicate Justified(f: Field, entry: (string, Confidence), ds: Dataset) {
    (entry.1 == High && FuzzyMatch(entry.0, Names(f), 0.5).1 >= 0.8)
    || (entry.1 == Medium && FuzzyMatch(entry.0, Names(f), 0.4).0)
    || (entry.1 == Low && HasContentPatterns(f) && ContentClaims(f, Sample(ds, entry.0)))
  }

  /**
   * The invariant of `detect_columns`: every detected column is an input column, is
   * recorded as used, is not excluded for its field and passed its pass's test, and no
   * column serves two fields.
   */
  predicate Sound(s: Claims, ds: Dataset) {
    (forall f :: f in s.detected ==> Holds(f, s.detected[f], s.used, ds))
    && (forall f, g :: f in s.detected && g in s.detected && f != g ==> s.detected[f].0 != s.detected[g].0)
  }

  /** Field `f` may hold `entry`: an input column, recorded in `used`, not excluded, justified. */
  predicate Holds(f: Field, entry: (string, Confidence), used: set<string>, ds: Dataset) {
    entry.0 in ds.columns && entry.0 in used && !ShouldExclude(entry.0, f) && Justified(f, entry, ds)
  }

  /** Claiming a free, justified column for a field keeps the invariant. */
  lemma ClaimSound(s: Claims, ds: Dataset, f: Field, entry: (string, Confidence))
    requires Sound(s, ds)
    requires entry.0 in ds.columns && entry.0 !in s.used && !ShouldExclude(entry.0, f)
    requires Justified(f, entry, ds)
    ensures Sound(Claims(s.detected[f := entry], s.used + {entry.0}), ds)
  {
    var d, u := s.detected[f := entry], s.used + {entry.0};
    forall g | g in d
      ensures Holds(g, d[g], u, ds)
    {
      if g != f {
        assert d[g] == s.detected[g];
        assert Holds(g, s.detected[g], s.used, ds);
      }
    }
    forall g, h | g in d && h in d && g != h
      ensures d[g].0 != d[h].0
    {
      if g == f {
        assert d[h] == s.detected[h];
      } else if h == f {
        assert d[g] == s.detected[g];
      } else {
        assert d[g] == s.detected[g] && d[h] == s.detected[h];
      }
    }
  }

  lemma StepSound(pass: nat, f: Field, ds: Dataset, s: Claims)
    requires 1 <= pass <= 3 && Sound(s, ds)
    ensures Sound(Step(pass, f, ds, s), ds)
  {
    if pass >= 2 && f in s.detected {
    } else if pass >= 3 && !HasContentPatterns(f) {
    } else {
      var r := FirstFree(pass, f, ds, s.used, 0);
      if r.Some? {
        var col := ds.columns[r.value];
        assert Free(pass, f, ds, s.used, col);
        assert Justified(f, (col, PassConfidence(pass)), ds);
        ClaimSound(s, ds, f, (col, PassConfidence(pass)));
      }
    }
  }

  lemma {:induction false} RunPassSound(pass: nat, fs: seq<Field>, ds: Dataset, s: Claims)
    requires 1 <= pass <= 3 && Sound(s, ds)
    ensures Sound(RunPass(pass, fs, ds, s), ds)
    decreases |fs|
  {
    if fs != [] {
      RunPassSound(pass, fs[..|fs| - 1], ds, s);
      StepSound(pass, fs[|fs| - 1], ds, RunPass(pass, fs[..|fs| - 1], ds, s));
    }
  }

  /**
   * What `detect_columns` guarantees: each detected column is one of the input columns,
   * no column is assigned to two fields, `numero_documento` never gets a column whose
   * name contains "tipo", a HIGH entry scored at least 0.8, a MEDIUM entry matched at
   * threshold 0.4, a LOW entry is a document number or birth date claimed by content, so
   * `nacionalidad` is never detected by content.
   */
  lemma DetectSound(ds: Dataset)
    ensures var d := Detect(ds);
      && (forall f :: f in d ==> d[f].0 in ds.columns)
      && (forall f, g :: f in d && g in d && f != g ==> d[f].0 != d[g].0)
      && (NumeroDocumento in d ==> !Contains(Lower(d[NumeroDocumento].0), "tipo"))
      && (forall f :: f in d && d[f].1 == High ==> FuzzyMatch(d[f].0, Names(f), 0.5).1 >= 0.8)
      && (forall f :: f in d && d[f].1 == Medium ==> FuzzyMatch(d[f].0, Names(f), 0.4).0)
      && (forall f :: f in d && d[f].1 == Low ==> HasContentPatterns(f) && ContentClaims(f, Sample(ds, d[f].0)))
      && (forall f :: f in d ==> d[f].1 != Undetected)
      && (Nacionalidad in d ==> d[Nacionalidad].1 != Low)
  {
    var s0 := Claims(map[], {});
    var first := RunPass(1, SortedFields, ds, s0);
    var second := RunPass(2, SortedFields, ds, first);
    RunPassSound(1, SortedFields, ds, s0);
    RunPassSound(2, SortedFields, ds, first);
    RunPassSound(3, CriticalFields, ds, second);
    SoundFacts(RunPass(3, CriticalFields, ds, second), ds);
  }

  lemma SoundFacts(s: Claims, ds: Dataset)
    requires Sound(s, ds)
    ensures var d := s.detected;
      && (forall f :: f in d ==> d[f].0 in ds.columns)
      && (forall f, g :: f in d && g in d && f != g ==> d[f].0 != d[g].0)
      && (NumeroDocumento in d ==> !Contains(Lower(d[NumeroDocumento].0), "tipo"))
      && (forall f :: f in d && d[f].1 == High ==> FuzzyMatch(d[f].0, Names(f), 0.5).1 >= 0.8)
      && (forall f :: f in d && d[f].1 == Medium ==> FuzzyMatch(d[f].0, Names(f), 0.4).0)
      && (forall f :: f in d && d[f].1 == Low ==> HasContentPatterns(f) && ContentClaims(f, Sample(ds, d[f].0)))
      && (forall f :: f in d ==> d[f].1 != Undetected)
      && (Nacionalidad in d ==> d[Nacionalidad].1 != Low)
  {
  }

  /** A column whose stripped, lower-cased name is one of a field's names is a first-pass hit for it. */
  lemma ExactNameIsHigh(column: string, f: Field)
    requires Strip(Lower(column)) in Names(f)
    ensures Accepts(1, f, Dataset([], []), column)
  {
  }
}
