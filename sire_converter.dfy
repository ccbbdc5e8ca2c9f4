/**
 * `SireConverter` (sire_converter.py:1057-1329): the row-by-row conversion of a
 * police-report dataset into SIRE lines, with its counters, error and warning
 * lists and the duplicate filter.
 *
 * The per-row work (`_process_guest`) is specified by the function `Process`
 * (read the row, then assemble the record) and the whole pass (`convert`) by
 * `Run`, a left fold of `Step` over the rows' outcomes.  Both take the resolvers
 * to run: `AsWritten`, the calls sire_converter.py makes, or `Corrected`.  The
 * class `Converter` holds the converter's mutable state and its methods are
 * proved to follow those functions with the resolvers as written; `Produced` and
 * `Detected` name the outcomes and the column map without unfolding them.  What
 * the pass promises about the rows, under either choice, is stated in the
 * module `PassProperties`.
 */
module SireConverter {
  import opened Wrappers
  import opened Strings
  import opened Cells
  import opened Records
  import ColumnDetector
  import CountryCodes
  import ColombianCities
  import DocumentTypes
  import DateParser
  import TextNormalizer
  import InferenceEngine
  import DocumentValidator

  type Field = ColumnDetector.Field

  /** What `detect_columns` returns: field to (column label, confidence). */
  type ColumnMap = map<Field, (string, Confidence)>

  /** The current year, which `DateParser.parse` reads from the clock. */
  type CurrentYear = DateParser.CurrentYear

  /** `city_code`'s default, Medellín (line 1060). */
  const DefaultCityCode: string := "5001"

  /** The SIRE code of Colombia, whose nationals are not reported (line 1181). */
  const Colombia: string := "169"

  /** The six counters of `self.stats` (lines 1071-1078). */
  datatype Stats = Stats(total: nat, valid: nat, skipped: nat, colombianos: nat, duplicados: nat, inferidos: nat)

  /** `GuestRecord` (lines 69-86): a field never set is `None`. */
  datatype GuestRecord = GuestRecord(
    rowNumber: int,
    documento: Option<FieldResult>,
    tipoDocumento: Option<FieldResult>,
    nombres: Option<FieldResult>,
    primerApellido: Option<FieldResult>,
    segundoApellido: Option<FieldResult>,
    nacionalidad: Option<FieldResult>,
    fechaNacimiento: Option<FieldResult>,
    fechaMovimiento: Option<FieldResult>,
    procedencia: Option<FieldResult>,
    destino: Option<FieldResult>,
    isValid: bool,
    errors: seq<string>,
    warnings: seq<string>)

  /** A record with only its row number set, as `GuestRecord(row_number=...)` builds it. */
  function NewGuest(rowNumber: int): GuestRecord {
    GuestRecord(rowNumber, None, None, None, None, None, None, None, None, None, None, false, [], [])
  }

  /** `f.value if f else default`. */
  function ValueOr(f: Option<FieldResult>, default: string): string {
    match f
    case Some(r) => r.value
    case None => default
  }

  predicate NoTab(s: string) {
    '\t' !in s
  }

  // ---------------------------------------------------------------- one row, section by section

  /**
   * `_get_value` (lines 1110-1116): an unmapped field reads as `None`; a mapped
   * one reads the row's cell under the mapped label, `None` when there is none.
   */
  function Value(cm: ColumnMap, columns: seq<string>, row: seq<Cell>, f: Field): (c: Cell)
    ensures f !in cm ==> c == Null
    ensures forall j :: f in cm && ColumnIndex(columns, cm[f].0) == Some(j) && j < |row| ==> c == row[j]
    ensures f in cm && cm[f].0 !in columns ==> c == Null
  {
    if f in cm then RowGet(columns, row, cm[f].0) else Null
  }

  /** The spellings the document cell is cleared for (line 1126). */
  const DocumentNullWords: seq<string> := ["nan", "none", "", "null"]

  /**
   * The document number of lines 1123-1127: `str(v).strip()` of a truthy cell,
   * cleared to "" when it spells a null.
   */
  function DocumentText(v: Cell): (s: string)
    ensures s != "" <==> Truthy(v) && Lower(Strip(Str(v))) !in DocumentNullWords
    ensures s != "" ==> s == Strip(Str(v))
  {
    var s := if Truthy(v) then Strip(Str(v)) else "";
    if Lower(s) in DocumentNullWords then "" else s
  }

  /**
   * The surname cell of lines 1143-1155: two or more tokens give the normalised
   * first token and the normalised rest; fewer give the normalised whole text
   * and no second surname.
   */
  function SurnameFields(v: Cell): (r: (FieldResult, FieldResult))
    ensures r.0.confidence == High && r.0.source == "primer_apellido"
    ensures r.1.confidence == (if r.1.value == "" then Undetected else High)
    ensures r.1.value != "" ==> |Words(if Truthy(v) then Str(v) else "")| >= 2
    ensures NoTab(r.0.value) && NoTab(r.1.value)
  {
    var raw := if Truthy(v) then Str(v) else "";
    var parts := Words(raw);
    var primer := if |parts| >= 2 then TextNormalizer.NormalizeName(Text(parts[0])) else TextNormalizer.NormalizeName(Text(raw));
    var segundo := if |parts| >= 2 then TextNormalizer.NormalizeName(Text(Join(" ", parts[1..]))) else "";
    TextNormalizer.NameNoTab(Text(if |parts| >= 2 then parts[0] else raw));
    TextNormalizer.NameNoTab(Text(Join(" ", if |parts| >= 2 then parts[1..] else [])));
    (FieldResult(primer, High, "primer_apellido", ""),
     FieldResult(segundo, if segundo != "" then High else Undetected, "", ""))
  }

  /** The name fields of a row and how many inferences they took. */
  datatype Names = Names(primer: Option<FieldResult>, segundo: Option<FieldResult>, nombres: Option<FieldResult>, inferred: nat)

  /**
   * Lines 1142-1167: the surname column and the given-name column when mapped;
   * without a given-name column and without a surname column, the full-name
   * column is split at MEDIUM confidence and counts as one inference.
   */
  function NameFields(cm: ColumnMap, columns: seq<string>, row: seq<Cell>): (r: Names)
    ensures r.inferred <= 1
    ensures r.inferred == 1 <==>
      ColumnDetector.Nombres !in cm && ColumnDetector.NombreCompleto in cm && ColumnDetector.PrimerApellido !in cm
    ensures r.primer.Some? <==> ColumnDetector.PrimerApellido in cm || r.inferred == 1
    ensures r.primer.Some? <==> r.segundo.Some?
    ensures r.nombres.Some? <==> ColumnDetector.Nombres in cm || r.inferred == 1
    ensures r.inferred == 1 ==>
      var parts := TextNormalizer.SplitFullName(Value(cm, columns, row, ColumnDetector.NombreCompleto));
      r.primer.value.value == parts.0 && r.segundo.value.value == parts.1 && r.nombres.value.value == parts.2
      && r.primer.value.confidence == Medium && r.segundo.value.confidence == Medium
      && r.nombres.value.confidence == Medium
    ensures r.primer.Some? ==> NoTab(r.primer.value.value)
    ensures r.segundo.Some? ==> NoTab(r.segundo.value.value)
    ensures r.nombres.Some? ==> NoTab(r.nombres.value.value)
  {
    var surnames :=
      if ColumnDetector.PrimerApellido in cm
      then var s := SurnameFields(Value(cm, columns, row, ColumnDetector.PrimerApellido)); Some(s)
      else None;
    if ColumnDetector.Nombres in cm then
      var v := Value(cm, columns, row, ColumnDetector.Nombres);
      TextNormalizer.NameNoTab(v);
      Names(
        if surnames.Some? then Some(surnames.value.0) else None,
        if surnames.Some? then Some(surnames.value.1) else None,
        Some(FieldResult(TextNormalizer.NormalizeName(v), High, "nombres", "")),
        0)
    else if ColumnDetector.NombreCompleto in cm && surnames.None? then
      var v := Value(cm, columns, row, ColumnDetector.NombreCompleto);
      var parts := TextNormalizer.SplitFullName(v);
      TextNormalizer.SplitNoTab(v);
      Names(
        Some(FieldResult(parts.0, Medium, "nombre_completo (inferido)", "")),
        Some(FieldResult(parts.1, Medium, "", "")),
        Some(FieldResult(parts.2, Medium, "nombre_completo (inferido)", "")),
        1)
    else
      Names(
        if surnames.Some? then Some(surnames.value.0) else None,
        if surnames.Some? then Some(surnames.value.1) else None,
        None,
        0)
  }

  const NationalityInferred: string := "Nacionalidad inferida desde procedencia"
  const OriginInferred: string := "Procedencia inferida desde nacionalidad"

  /** The nationality of a row, the warnings it raised and how many inferences it took. */
  datatype Nationality = Nationality(code: string, confidence: Confidence, warnings: seq<string>, inferred: nat)

  /**
   * Lines 1169-1179: the nationality column's country code; when it gives none
   * and a procedencia column is mapped, the code inferred from procedencia,
   * which adds a warning and counts as one inference when it finds a code.
   */
  function NationalityOf(rs: Resolvers, cm: ColumnMap, columns: seq<string>, row: seq<Cell>): (r: Nationality)
    ensures var direct := CountryCodes.GetCodeWith(rs, Value(cm, columns, row, ColumnDetector.Nacionalidad));
      direct.0 != "" ==> r == Nationality(direct.0, direct.1, [], 0)
    ensures var direct := CountryCodes.GetCodeWith(rs, Value(cm, columns, row, ColumnDetector.Nacionalidad));
      var inferred := InferenceEngine.InferCountryCode(rs, Value(cm, columns, row, ColumnDetector.Procedencia));
      direct.0 == "" && ColumnDetector.Procedencia in cm ==> r.code == inferred.0 && r.confidence == inferred.1
    ensures r.inferred <= 1
    ensures r.inferred == 1 <==> r.warnings == [NationalityInferred]
    ensures r.inferred == 0 <==> r.warnings == []
    ensures r.inferred == 1 ==>
      CountryCodes.GetCodeWith(rs, Value(cm, columns, row, ColumnDetector.Nacionalidad)).0 == ""
      && ColumnDetector.Procedencia in cm && r.code != ""
    ensures AllDigits(r.code)
  {
    var v := Value(cm, columns, row, ColumnDetector.Nacionalidad);
    var direct := CountryCodes.GetCodeWith(rs, v);
    if direct.0 == "" && ColumnDetector.Procedencia in cm then
      var p := Value(cm, columns, row, ColumnDetector.Procedencia);
      var inferred := InferenceEngine.InferCountryCode(rs, p);
      if inferred.0 != "" then Nationality(inferred.0, inferred.1, [NationalityInferred], 1)
      else Nationality(inferred.0, inferred.1, [], 0)
    else Nationality(direct.0, direct.1, [], 0)
  }

  /**
   * Lines 1199-1212: the procedencia column's country code; without one, the
   * nationality code at LOW (with a warning when there is a nationality); the
   * confidence is never NONE.
   */
  function ProcedenciaOf(rs: Resolvers, v: Cell, nationality: string): (r: (FieldResult, seq<string>))
    ensures r.0.confidence != Undetected
    ensures CountryCodes.GetCodeWith(rs, v).0 != "" ==>
      r.0.value == CountryCodes.GetCodeWith(rs, v).0 && r.0.confidence == CountryCodes.GetCodeWith(rs, v).1 && r.1 == []
    ensures CountryCodes.GetCodeWith(rs, v).0 == "" ==>
      r.0.value == nationality && r.0.confidence == Low
      && r.1 == (if nationality != "" then [OriginInferred] else [])
    ensures AllDigits(nationality) ==> AllDigits(r.0.value)
  {
    var (code, conf) := CountryCodes.GetCodeWith(rs, v);
    var (code', conf', warnings) :=
      if code == "" && nationality != "" then (nationality, Low, [OriginInferred]) else (code, conf, []);
    var value := if code' != "" then code' else nationality;
    (FieldResult(value, if conf' != Undetected then conf' else Low, "", ""), warnings)
  }

  /**
   * Lines 1214-1227: a Colombian city is Colombia at HIGH; otherwise the
   * country code of the text; with neither, Colombia at LOW.  Never empty.
   */
  function DestinoOf(rs: Resolvers, v: Cell): (r: FieldResult)
    ensures r.value != "" && r.confidence != Undetected
    ensures AllDigits(r.value)
    ensures ColombianCities.IsColombianCity(v).0 ==> r.value == Colombia && r.confidence == High
    ensures !ColombianCities.IsColombianCity(v).0 && CountryCodes.GetCodeWith(rs, v).0 != "" ==>
      r.value == CountryCodes.GetCodeWith(rs, v).0 && r.confidence == CountryCodes.GetCodeWith(rs, v).1
    ensures !ColombianCities.IsColombianCity(v).0 && CountryCodes.GetCodeWith(rs, v).0 == "" ==>
      r.value == Colombia && r.confidence == Low
  {
    var city := ColombianCities.ColombiaCodeIfCity(v);
    ColombiaDigits();
    if city.0 != "" then FieldResult(city.0, city.1, "", "")
    else
      var (code, conf) := CountryCodes.GetCodeWith(rs, v);
      FieldResult(if code != "" then code else Colombia, if conf != Undetected then conf else Low, "", "")
  }

  /** Colombia's code is a code: digits only. */
  lemma ColombiaDigits()
    ensures AllDigits(Colombia) && Colombia != ""
  {
    assert Colombia[0] == '1' && Colombia[1] == '6' && Colombia[2] == '9';
  }

  /** The fields checked at lines 1230-1237, in order. */
  function Required(g: GuestRecord): seq<(string, Option<FieldResult>)> {
    [("documento", g.documento), ("nombres", g.nombres), ("primer_apellido", g.primerApellido),
     ("nacionalidad", g.nacionalidad), ("fecha_movimiento", g.fechaMovimiento),
     ("fecha_nacimiento", g.fechaNacimiento)]
  }

  /** A required field that is unset or empty. */
  predicate Lacks(f: (string, Option<FieldResult>)) {
    f.1.None? || f.1.value.value == ""
  }

  /** `Falta <name>` for each required field that is unset or empty, in order (lines 1239-1241). */
  function Missing(fs: seq<(string, Option<FieldResult>)>): (errs: seq<string>)
    ensures errs == [] <==> forall i :: 0 <= i < |fs| ==> !Lacks(fs[i])
    ensures |errs| <= |fs|
  {
    if fs == [] then []
    else
      var last := fs[|fs| - 1];
      Missing(fs[..|fs| - 1]) + (if Lacks(last) then ["Falta " + last.0] else [])
  }

  /** The record returned when the document check fails (lines 1131-1133). */
  function Rejected(idx: nat, message: string): GuestRecord {
    NewGuest(idx + 2).(errors := ["Documento: " + message])
  }

  /** What `_process_guest` returns or raises, and how many times it bumped `inferidos`. */
  datatype Processed = Processed(outcome: Result<Option<GuestRecord>>, inferred: nat)

  /** The date cell the movement type selects (lines 1187-1190). */
  function MovementField(movement: string): Field {
    if movement == "E" then ColumnDetector.FechaCheckin else ColumnDetector.FechaCheckout
  }

  /** The document number a row presents, before validation. */
  function RowDocument(cm: ColumnMap, columns: seq<string>, row: seq<Cell>): string {
    DocumentText(Value(cm, columns, row, ColumnDetector.NumeroDocumento))
  }

  /** A record's field values except the document number hold no tab. */
  predicate TabFreeGuest(g: GuestRecord) {
    NoTab(ValueOr(g.tipoDocumento, "3")) && NoTab(ValueOr(g.nacionalidad, ""))
    && NoTab(ValueOr(g.primerApellido, "")) && NoTab(ValueOr(g.segundoApellido, ""))
    && NoTab(ValueOr(g.nombres, "")) && NoTab(ValueOr(g.fechaMovimiento, ""))
    && NoTab(ValueOr(g.procedencia, "")) && NoTab(ValueOr(g.destino, Colombia))
    && NoTab(ValueOr(g.fechaNacimiento, ""))
  }

  /** What the resolvers read from one row, before the record is assembled. */
  datatype Readings = Readings(
    document: string,
    check: (bool, string),
    tipo: (string, Confidence),
    names: Names,
    nationality: Nationality,
    movement: Result<(string, Confidence)>,
    birth: Result<(string, Confidence)>,
    origin: (FieldResult, seq<string>),
    destination: FieldResult)

  /** The facts about the resolvers' answers that the assembly relies on. */
  predicate Sound(r: Readings) {
    (r.check.0 ==> r.document != "")
    && NoTab(r.tipo.0)
    && (r.names.primer.Some? <==> r.names.segundo.Some?)
    && (r.names.primer.Some? ==> NoTab(r.names.primer.value.value))
    && (r.names.segundo.Some? ==> NoTab(r.names.segundo.value.value))
    && (r.names.nombres.Some? ==> NoTab(r.names.nombres.value.value))
    && r.names.inferred <= 1 && r.nationality.inferred <= 1
    && AllDigits(r.nationality.code)
    && (r.movement.Raised? ==> r.movement.message == DateParser.NaTMessage)
    && (r.movement.Ok? ==> NoTab(r.movement.value.0))
    && (r.birth.Raised? ==> r.birth.message == DateParser.NaTMessage)
    && (r.birth.Ok? ==> NoTab(r.birth.value.0))
    && AllDigits(r.origin.0.value)
    && r.destination.value != "" && AllDigits(r.destination.value)
  }

  /** A string of digits holds no tab. */
  lemma DigitsNoTab(s: string)
    requires AllDigits(s)
    ensures NoTab(s)
  {
  }

  /** A document-type code holds no tab. */
  lemma DocCodeNoTab(s: string)
    requires DocumentTypes.IsDocCode(s)
    ensures NoTab(s)
  {
  }

  /** Every resolver of lines 1122-1227 applied to the row, as `rs` chooses them. */
  function Read(rs: Resolvers, cm: ColumnMap, columns: seq<string>, row: seq<Cell>, movement: string, cy: CurrentYear): (r: Readings)
    ensures Sound(r)
    ensures r.document == RowDocument(cm, columns, row)
    ensures r.check == DocumentValidator.ValidateDocument(r.document)
    ensures r.nationality == NationalityOf(rs, cm, columns, row)
    ensures r.names == NameFields(cm, columns, row)
    ensures r.movement.Raised? <==> Value(cm, columns, row, MovementField(movement)).NaT?
    ensures r.birth.Raised? <==> Value(cm, columns, row, ColumnDetector.FechaNacimiento).NaT?
  {
    GatheredSound(rs, cm, columns, row, movement, cy);
    Gather(rs, cm, columns, row, movement, cy)
  }

  /** The resolvers' answers for one row, collected. */
  function Gather(rs: Resolvers, cm: ColumnMap, columns: seq<string>, row: seq<Cell>, movement: string, cy: CurrentYear): Readings {
    var doc := RowDocument(cm, columns, row);
    var nationality := NationalityOf(rs, cm, columns, row);
    Readings(
      doc,
      DocumentValidator.ValidateDocument(doc),
      DocumentTypes.GetCodeWith(rs, Value(cm, columns, row, ColumnDetector.TipoDocumento)),
      NameFields(cm, columns, row),
      nationality,
      DateParser.ParseWith(rs, Value(cm, columns, row, MovementField(movement)), cy),
      DateParser.ParseWith(rs, Value(cm, columns, row, ColumnDetector.FechaNacimiento), cy),
      ProcedenciaOf(rs, Value(cm, columns, row, ColumnDetector.Procedencia), nationality.code),
      DestinoOf(rs, Value(cm, columns, row, ColumnDetector.Destino)))
  }

  /** The resolvers' contracts give the facts `Sound` collects. */
  lemma GatheredSound(rs: Resolvers, cm: ColumnMap, columns: seq<string>, row: seq<Cell>, movement: string, cy: CurrentYear)
    ensures var r := Gather(rs, cm, columns, row, movement, cy);
      Sound(r)
      && (r.movement.Raised? <==> Value(cm, columns, row, MovementField(movement)).NaT?)
      && (r.birth.Raised? <==> Value(cm, columns, row, ColumnDetector.FechaNacimiento).NaT?)
  {
    var r := Gather(rs, cm, columns, row, movement, cy);
    DocCodeNoTab(r.tipo.0);
  }

  /** The record of lines 1135-1243 built from the readings, before its errors are checked. */
  function Filled(idx: nat, r: Readings): GuestRecord
    requires r.movement.Ok? && r.birth.Ok?
  {
    NewGuest(idx + 2).(
      documento := Some(FieldResult(r.document, High, "numero_documento", "")),
      tipoDocumento := Some(FieldResult(r.tipo.0, r.tipo.1, "tipo_documento", "")),
      primerApellido := r.names.primer,
      segundoApellido := r.names.segundo,
      nombres := r.names.nombres,
      nacionalidad := Some(FieldResult(r.nationality.code, r.nationality.confidence, "nacionalidad", "")),
      fechaMovimiento := Some(FieldResult(r.movement.value.0, r.movement.value.1, "", "")),
      fechaNacimiento := Some(FieldResult(r.birth.value.0, r.birth.value.1, "", "")),
      procedencia := Some(r.origin.0),
      destino := Some(r.destination),
      warnings := r.nationality.warnings + r.origin.1)
  }

  /**
   * The control flow of `_process_guest` over the readings: an invalid document
   * returns a record carrying only that error; a Colombian nationality returns
   * `None`; a NaT date raises; otherwise the filled record, valid exactly when
   * no required field is empty.
   */
  function Assemble(idx: nat, r: Readings): (p: Processed)
    requires Sound(r)
    ensures !r.check.0 ==> p == Processed(Ok(Some(Rejected(idx, r.check.1))), 0)
    ensures p.outcome == Ok(None) <==> r.check.0 && r.nationality.code == Colombia
    ensures p.outcome.Raised? <==>
      r.check.0 && r.nationality.code != Colombia && (r.movement.Raised? || r.birth.Raised?)
    ensures p.outcome.Raised? ==> p.outcome.message == DateParser.NaTMessage
    ensures r.check.0 ==> p.inferred == r.names.inferred + r.nationality.inferred
    ensures p.inferred <= 2
    ensures p.outcome.Ok? && p.outcome.value.Some? ==> p.outcome.value.value.rowNumber == idx + 2
    ensures p.outcome.Ok? && p.outcome.value.Some? ==>
      (p.outcome.value.value.isValid <==> p.outcome.value.value.errors == [])
    ensures p.outcome.Ok? && p.outcome.value.Some? && p.outcome.value.value.isValid ==>
      var g := p.outcome.value.value;
      g.documento == Some(FieldResult(r.document, High, "numero_documento", "")) && r.check.0
      && (forall i :: 0 <= i < |Required(g)| ==> !Lacks(Required(g)[i]))
      && g.nacionalidad.Some? && g.nacionalidad.value.value != Colombia
      && g.destino.Some? && g.destino.value.value != ""
      && TabFreeGuest(g)
  {
    if !r.check.0 then Processed(Ok(Some(Rejected(idx, r.check.1))), 0)
    else
      var inferred := r.names.inferred + r.nationality.inferred;
      if r.nationality.code == Colombia then Processed(Ok(None), inferred)
      else if r.movement.Raised? then Processed(Raised(r.movement.message), inferred)
      else if r.birth.Raised? then Processed(Raised(r.birth.message), inferred)
      else
        var g := Filled(idx, r);
        var errors := Missing(Required(g));
        var h := g.(errors := errors, isValid := errors == []);
        assert h.nacionalidad == Some(FieldResult(r.nationality.code, r.nationality.confidence, "nacionalidad", ""));
        DigitsNoTab(r.nationality.code);
        DigitsNoTab(r.origin.0.value);
        DigitsNoTab(r.destination.value);
        assert TabFreeGuest(h);
        Processed(Ok(Some(h)), inferred)
  }

  /** `_process_guest` (lines 1118-1245) with the resolvers `rs`. */
  function Process(rs: Resolvers, cm: ColumnMap, columns: seq<string>, row: seq<Cell>, idx: nat, movement: string, cy: CurrentYear): Processed {
    Assemble(idx, Read(rs, cm, columns, row, movement, cy))
  }

  // ---------------------------------------------------------------- the whole pass

  /** The codes and the movement type every line of one conversion carries. */
  datatype Job = Job(hotelCode: string, cityCode: string, movement: string)

  /** The state `convert` carries from row to row. */
  datatype Progress = Progress(lines: seq<string>, seen: set<string>, stats: Stats,
                               errors: seq<string>, warnings: seq<string>)

  /** `f"Fila {row}: {message}"`. */
  function RowMessage(rowNumber: int, message: string): string {
    "Fila " + IntToString(rowNumber) + ": " + message
  }

  /** `RowMessage` of each message, in order. */
  function Prefixed(rowNumber: int, messages: seq<string>): (r: seq<string>)
    ensures |r| == |messages|
    ensures forall i :: 0 <= i < |r| ==> r[i] == RowMessage(rowNumber, messages[i])
  {
    if messages == [] then []
    else Prefixed(rowNumber, messages[..|messages| - 1]) + [RowMessage(rowNumber, messages[|messages| - 1])]
  }

  /** The duplicate key of line 1294. */
  function Key(g: GuestRecord, movement: string): string {
    ValueOr(g.documento, "") + "|" + ValueOr(g.fechaMovimiento, "") + "|" + movement
  }

  /** The 13 fields of a SIRE line, in order (lines 1301-1315). */
  function LineFields(job: Job, g: GuestRecord): (fs: seq<string>)
    ensures |fs| == 13
    ensures fs[0] == job.hotelCode && fs[1] == job.cityCode && fs[8] == job.movement
    ensures fs[3] == ValueOr(g.documento, "")
  {
    [job.hotelCode, job.cityCode, ValueOr(g.tipoDocumento, "3"), ValueOr(g.documento, ""),
     ValueOr(g.nacionalidad, ""), ValueOr(g.primerApellido, ""), ValueOr(g.segundoApellido, ""),
     ValueOr(g.nombres, ""), job.movement, ValueOr(g.fechaMovimiento, ""),
     ValueOr(g.procedencia, ""), ValueOr(g.destino, Colombia), ValueOr(g.fechaNacimiento, "")]
  }

  /**
   * `outs` holds the outcome of every row, top to bottom.  The quantifier is only
   * instantiated where a row's `Process` term is already present.
   */
  ghost predicate Produced(rs: Resolvers, cm: ColumnMap, columns: seq<string>, rows: seq<seq<Cell>>, movement: string, cy: CurrentYear,
                           outs: seq<Processed>) {
    |outs| == |rows|
    && forall i {:trigger Process(rs, cm, columns, rows[i], i, movement, cy)} ::
         0 <= i < |rows| ==> outs[i] == Process(rs, cm, columns, rows[i], i, movement, cy)
  }

  /** The outcome of every row, top to bottom. */
  function Outcomes(rs: Resolvers, cm: ColumnMap, columns: seq<string>, rows: seq<seq<Cell>>, movement: string, cy: CurrentYear): (ps: seq<Processed>)
    ensures Produced(rs, cm, columns, rows, movement, cy, ps)
  {
    seq(|rows|, i requires 0 <= i < |rows| => Process(rs, cm, columns, rows[i], i, movement, cy))
  }

  /** Lines 1283-1326: where one row's outcome goes once `_process_guest` has returned or raised. */
  function Sort(job: Job, st: Progress, idx: nat, outcome: Result<Option<GuestRecord>>): Progress {
    match outcome
    case Raised(message) =>
      st.(stats := st.stats.(skipped := st.stats.skipped + 1),
          errors := st.errors + [RowMessage(idx + 2, "Error inesperado - " + message)])
    case Ok(None) =>
      st.(stats := st.stats.(colombianos := st.stats.colombianos + 1))
    case Ok(Some(g)) =>
      if !g.isValid then
        st.(stats := st.stats.(skipped := st.stats.skipped + 1), errors := st.errors + Prefixed(g.rowNumber, g.errors))
      else if Key(g, job.movement) in st.seen then
        st.(stats := st.stats.(duplicados := st.stats.duplicados + 1))
      else
        Progress(st.lines + [Join("\t", LineFields(job, g))], st.seen + {Key(g, job.movement)},
                 st.stats.(valid := st.stats.valid + 1), st.errors, st.warnings + Prefixed(g.rowNumber, g.warnings))
  }

  /** One iteration of the loop of lines 1279-1327, on row `idx` whose outcome is `p`. */
  function Step(job: Job, st: Progress, idx: nat, p: Processed): Progress {
    Sort(job, st.(stats := st.stats.(inferidos := st.stats.inferidos + p.inferred)), idx, p.outcome)
  }

  /** The state after the first `n` rows, whose outcomes are `outs`. */
  function RunRows(job: Job, outs: seq<Processed>, n: nat): Progress
    requires n <= |outs|
  {
    if n == 0 then Progress([], {}, Stats(|outs|, 0, 0, 0, 0, 0), [], [])
    else Step(job, RunRows(job, outs, n - 1), n - 1, outs[n - 1])
  }

  /** The loop of `convert` (lines 1279-1327) under the column map `cm`, as a function of its inputs. */
  function Run(rs: Resolvers, job: Job, cm: ColumnMap, ds: Dataset, cy: CurrentYear): Progress {
    var outs := Outcomes(rs, cm, ds.columns, ds.rows, job.movement, cy);
    RunRows(job, outs, |outs|)
  }

  /** `Run` through the outcomes themselves, which the loop's proof works with. */
  lemma RunThrough(rs: Resolvers, job: Job, cm: ColumnMap, ds: Dataset, cy: CurrentYear) returns (outs: seq<Processed>)
    ensures Produced(rs, cm, ds.columns, ds.rows, job.movement, cy, outs)
    ensures Run(rs, job, cm, ds, cy) == RunRows(job, outs, |outs|)
  {
    outs := Outcomes(rs, cm, ds.columns, ds.rows, job.movement, cy);
  }

  /**
   * `cm` is the column map `detect_columns` gives for `ds`.  The quantifier is only
   * instantiated where a `Detect` term is already present.
   */
  ghost predicate Detected(ds: Dataset, cm: ColumnMap) {
    forall d {:trigger ColumnDetector.Detect(d)} :: d == ds ==> cm == ColumnDetector.Detect(d)
  }

  /**
   * `st` is the state after the first `n` rows.  The quantifier is only
   * instantiated where a `RunRows` term is already present, so the loop of
   * `convert` does not unfold the sorting of every row.
   */
  ghost predicate RanTo(job: Job, outs: seq<Processed>, n: nat, st: Progress) {
    n <= |outs| && forall k {:trigger RunRows(job, outs, k)} :: k == n ==> RunRows(job, outs, k) == st
  }

  /** `detect_columns` (lines 762-855), its result stated through `Detected`. */
  method DetectColumnMap(ds: Dataset) returns (cm: ColumnMap)
    ensures Detected(ds, cm)
  {
    cm := ColumnDetector.DetectColumns(ds);
  }

  // ---------------------------------------------------------------- one row, step by step

  /** Lines 1142-1167: the name section; `inferred` counts the full-name split. */
  method NameSection(cm: ColumnMap, columns: seq<string>, row: seq<Cell>) returns (names: Names)
    ensures names == NameFields(cm, columns, row)
  {
    names := Names(None, None, None, 0);
    if ColumnDetector.PrimerApellido in cm {
      var surnames := SurnameFields(Value(cm, columns, row, ColumnDetector.PrimerApellido));
      names := names.(primer := Some(surnames.0), segundo := Some(surnames.1));
    }
    if ColumnDetector.Nombres in cm {
      var v := Value(cm, columns, row, ColumnDetector.Nombres);
      names := names.(nombres := Some(FieldResult(TextNormalizer.NormalizeName(v), High, "nombres", "")));
    } else if ColumnDetector.NombreCompleto in cm && names.primer.None? {
      var parts := TextNormalizer.SplitFullName(Value(cm, columns, row, ColumnDetector.NombreCompleto));
      names := Names(Some(FieldResult(parts.0, Medium, "nombre_completo (inferido)", "")),
                     Some(FieldResult(parts.1, Medium, "", "")),
                     Some(FieldResult(parts.2, Medium, "nombre_completo (inferido)", "")), 1);
    }
  }

  /** Lines 1169-1179: the nationality section; `inferred` counts an inference from procedencia. */
  method NationalitySection(rs: Resolvers, cm: ColumnMap, columns: seq<string>, row: seq<Cell>) returns (nationality: Nationality)
    ensures nationality == NationalityOf(rs, cm, columns, row)
  {
    var (code, confidence) := CountryCodes.GetCodeWith(rs, Value(cm, columns, row, ColumnDetector.Nacionalidad));
    nationality := Nationality(code, confidence, [], 0);
    if code == "" && ColumnDetector.Procedencia in cm {
      var (code', confidence') := InferenceEngine.InferCountryCode(rs, Value(cm, columns, row, ColumnDetector.Procedencia));
      nationality := Nationality(code', confidence', [], 0);
      if code' != "" {
        nationality := nationality.(warnings := [NationalityInferred], inferred := 1);
      }
    }
  }

  /** The loop of lines 1239-1241: `Falta <name>` for each required field that is unset or empty. */
  method CheckRequired(g: GuestRecord) returns (h: GuestRecord)
    ensures h == g.(errors := g.errors + Missing(Required(g)))
  {
    var required := Required(g);
    h := g;
    var k := 0;
    while k < |required|
      invariant 0 <= k <= |required|
      invariant h == g.(errors := g.errors + Missing(required[..k]))
    {
      assert required[..k + 1][..k] == required[..k];
      if Lacks(required[k]) {
        h := h.(errors := h.errors + ["Falta " + required[k].0]);
      }
      k := k + 1;
    }
    assert required[..k] == required;
  }

  /** Every cell lookup and resolver call of lines 1122-1227, section by section. */
  method ReadRow(rs: Resolvers, cm: ColumnMap, columns: seq<string>, row: seq<Cell>, movement: string, cy: CurrentYear)
    returns (rd: Readings)
    ensures rd == Read(rs, cm, columns, row, movement, cy)
  {
    var doc := DocumentText(Value(cm, columns, row, ColumnDetector.NumeroDocumento));
    var check := DocumentValidator.ValidateDocument(doc);
    var tipo := DocumentTypes.GetCodeWith(rs, Value(cm, columns, row, ColumnDetector.TipoDocumento));
    var names := NameSection(cm, columns, row);
    var nationality := NationalitySection(rs, cm, columns, row);
    var mov := DateParser.ParseWith(rs, Value(cm, columns, row, MovementField(movement)), cy);
    var birth := DateParser.ParseWith(rs, Value(cm, columns, row, ColumnDetector.FechaNacimiento), cy);
    var origin := ProcedenciaOf(rs, Value(cm, columns, row, ColumnDetector.Procedencia), nationality.code);
    var destination := DestinoOf(rs, Value(cm, columns, row, ColumnDetector.Destino));
    rd := Readings(doc, check, tipo, names, nationality, mov, birth, origin, destination);
  }

  /**
   * The control flow of `_process_guest` (lines 1118-1245) over a row's readings:
   * fills the record section by section; `inferred` counts the bumps of `inferidos`.
   */
  method AssembleRow(idx: nat, rd: Readings) returns (r: Result<Option<GuestRecord>>, inferred: nat)
    requires Sound(rd)
    ensures Processed(r, inferred) == Assemble(idx, rd)
  {
    var guest := NewGuest(idx + 2);
    inferred := 0;
    if !rd.check.0 {
      guest := guest.(errors := guest.errors + ["Documento: " + rd.check.1]);
      assert guest.errors == ["Documento: " + rd.check.1];
      return Ok(Some(guest)), inferred;
    }
    guest := guest.(documento := Some(FieldResult(rd.document, High, "numero_documento", "")));
    guest := guest.(tipoDocumento := Some(FieldResult(rd.tipo.0, rd.tipo.1, "tipo_documento", "")));
    guest := guest.(primerApellido := rd.names.primer, segundoApellido := rd.names.segundo, nombres := rd.names.nombres);
    inferred := inferred + rd.names.inferred;

    guest := guest.(warnings := guest.warnings + rd.nationality.warnings);
    inferred := inferred + rd.nationality.inferred;
    if rd.nationality.code == Colombia {
      return Ok(None), inferred;
    }
    guest := guest.(nacionalidad := Some(FieldResult(rd.nationality.code, rd.nationality.confidence, "nacionalidad", "")));

    if rd.movement.Raised? {
      return Raised(rd.movement.message), inferred;
    }
    guest := guest.(fechaMovimiento := Some(FieldResult(rd.movement.value.0, rd.movement.value.1, "", "")));
    if rd.birth.Raised? {
      return Raised(rd.birth.message), inferred;
    }
    guest := guest.(fechaNacimiento := Some(FieldResult(rd.birth.value.0, rd.birth.value.1, "", "")));
    guest := guest.(procedencia := Some(rd.origin.0), warnings := guest.warnings + rd.origin.1);
    guest := guest.(destino := Some(rd.destination));
    assert guest == Filled(idx, rd);

    ghost var errors := Missing(Required(guest));
    guest := CheckRequired(guest);
    assert [] + errors == errors;
    guest := guest.(isValid := |guest.errors| == 0);
    assert guest == Filled(idx, rd).(errors := errors, isValid := errors == []);
    return Ok(Some(guest)), inferred;
  }

  /**
   * `_process_guest` (lines 1118-1245) under the column map `cm`: the row's
   * outcome and how many times it bumps `inferidos`.
   */
  method ProcessGuest(rs: Resolvers, cm: ColumnMap, columns: seq<string>, row: seq<Cell>, idx: nat, movement: string, cy: CurrentYear)
    returns (r: Result<Option<GuestRecord>>, inferred: nat)
    ensures Processed(r, inferred) == Process(rs, cm, columns, row, idx, movement, cy)
  {
    var rd := ReadRow(rs, cm, columns, row, movement, cy);
    r, inferred := AssembleRow(idx, rd);
  }

  /** `_process_guest` on row `idx` of a dataset whose outcomes are `outs`. */
  method ProcessAt(rs: Resolvers, cm: ColumnMap, columns: seq<string>, rows: seq<seq<Cell>>, idx: nat, movement: string, cy: CurrentYear,
                   ghost outs: seq<Processed>)
    returns (r: Result<Option<GuestRecord>>, inferred: nat)
    requires idx < |rows| && Produced(rs, cm, columns, rows, movement, cy, outs)
    ensures r == outs[idx].outcome && inferred == outs[idx].inferred
  {
    r, inferred := ProcessGuest(rs, cm, columns, rows[idx], idx, movement, cy);
  }

  // ---------------------------------------------------------------- the converter object

  /** `SireConverter`: the codes it writes and the state one conversion leaves behind. */
  class Converter {
    var hotelCode: string
    var cityCode: string
    var columnMap: ColumnMap
    var stats: Stats
    var errors: seq<string>
    var warnings: seq<string>

    /** `__init__` (lines 1060-1080). */
    constructor(hotelCode: string, cityCode: string)
      ensures this.hotelCode == hotelCode && this.cityCode == cityCode
      ensures columnMap == map[] && stats == Stats(0, 0, 0, 0, 0, 0) && errors == [] && warnings == []
    {
      this.hotelCode := hotelCode;
      this.cityCode := cityCode;
      columnMap := map[];
      stats := Stats(0, 0, 0, 0, 0, 0);
      errors := [];
      warnings := [];
    }

    /** `__init__` with the default city code. */
    constructor ForMedellin(hotelCode: string)
      ensures this.hotelCode == hotelCode && this.cityCode == DefaultCityCode
      ensures columnMap == map[] && stats == Stats(0, 0, 0, 0, 0, 0) && errors == [] && warnings == []
    {
      this.hotelCode := hotelCode;
      this.cityCode := DefaultCityCode;
      columnMap := map[];
      stats := Stats(0, 0, 0, 0, 0, 0);
      errors := [];
      warnings := [];
    }

    /**
     * `_process_guest` (lines 1118-1245) on row `idx` of a dataset whose outcomes
     * are `outs`: the row's outcome, with `inferidos` bumped by its inferences.
     */
    method ProcessRow(columns: seq<string>, rows: seq<seq<Cell>>, idx: nat, movement: string, cy: CurrentYear,
                      ghost outs: seq<Processed>)
      returns (r: Result<Option<GuestRecord>>)
      requires idx < |rows| && Produced(AsWritten, columnMap, columns, rows, movement, cy, outs)
      modifies this`stats
      ensures r == outs[idx].outcome
      ensures stats == old(stats).(inferidos := old(stats).inferidos + outs[idx].inferred)
    {
      var inferred;
      r, inferred := ProcessAt(AsWritten, columnMap, columns, rows, idx, movement, cy, outs);
      stats := stats.(inferidos := stats.inferidos + inferred);
    }

    /**
     * `convert` (lines 1247-1329): detects the columns, resets the counters and
     * lists, and runs every row through `ProcessGuest`, sorting it into exactly
     * one of the valid, skipped, colombianos and duplicados counters.
     */
    method Convert(ds: Dataset, movement: string, cy: CurrentYear) returns (lines: seq<string>, result: Stats)
      modifies this
      ensures hotelCode == old(hotelCode) && cityCode == old(cityCode)
      ensures Detected(ds, columnMap)
      ensures var run := Run(AsWritten, Job(hotelCode, cityCode, movement), columnMap, ds, cy);
        lines == run.lines && stats == run.stats && errors == run.errors && warnings == run.warnings
      ensures result == stats
      ensures stats.total == |ds.rows| == stats.valid + stats.skipped + stats.colombianos + stats.duplicados
      ensures |lines| == stats.valid
    {
      columnMap := DetectColumnMap(ds);
      stats := Stats(|ds.rows|, 0, 0, 0, 0, 0);
      errors := [];
      warnings := [];
      lines := RunDataset(ds, movement, cy);
      result := stats;
    }

    /** Lines 1279-1327 on the whole dataset, from freshly reset counters and lists. */
    method RunDataset(ds: Dataset, movement: string, cy: CurrentYear) returns (lines: seq<string>)
      requires stats == Stats(|ds.rows|, 0, 0, 0, 0, 0) && errors == [] && warnings == []
      modifies this`stats, this`errors, this`warnings
      ensures var run := Run(AsWritten, Job(hotelCode, cityCode, movement), columnMap, ds, cy);
        lines == run.lines && stats == run.stats && errors == run.errors && warnings == run.warnings
      ensures stats.total == |ds.rows| == stats.valid + stats.skipped + stats.colombianos + stats.duplicados
      ensures |lines| == stats.valid
    {
      ghost var outs := RunThrough(AsWritten, Job(hotelCode, cityCode, movement), columnMap, ds, cy);
      lines := ConvertRows(ds.columns, ds.rows, movement, cy, outs);
      RunCounts(Job(hotelCode, cityCode, movement), outs, |outs|);
    }

    /** The loop of lines 1279-1327, from freshly reset counters and lists. */
    method ConvertRows(columns: seq<string>, rows: seq<seq<Cell>>, movement: string, cy: CurrentYear,
                       ghost outs: seq<Processed>)
      returns (lines: seq<string>)
      requires Produced(AsWritten, columnMap, columns, rows, movement, cy, outs)
      requires stats == Stats(|rows|, 0, 0, 0, 0, 0) && errors == [] && warnings == []
      modifies this`stats, this`errors, this`warnings
      ensures var run := RunRows(Job(hotelCode, cityCode, movement), outs, |outs|);
        lines == run.lines && stats == run.stats && errors == run.errors && warnings == run.warnings
    {
      var job := Job(hotelCode, cityCode, movement);
      ghost var cm := columnMap;
      lines := [];
      var seen: set<string> := {};
      var idx := 0;
      while idx < |rows|
        invariant 0 <= idx <= |rows|
        invariant RanTo(job, outs, idx, Progress(lines, seen, stats, errors, warnings))
      {
        lines, seen := ConvertRow(job, columns, rows, idx, movement, cy, cm, outs, lines, seen);
        idx := idx + 1;
      }
    }

    /** One iteration of the loop of lines 1279-1327: `_process_guest` on row `idx`, then the row sorted. */
    method ConvertRow(job: Job, columns: seq<string>, rows: seq<seq<Cell>>, idx: nat, movement: string, cy: CurrentYear,
                      ghost cm: ColumnMap, ghost outs: seq<Processed>, lines: seq<string>, seen: set<string>)
      returns (lines': seq<string>, seen': set<string>)
      requires idx < |rows| && cm == columnMap && Produced(AsWritten, cm, columns, rows, movement, cy, outs)
      requires RanTo(job, outs, idx, Progress(lines, seen, stats, errors, warnings))
      modifies this`stats, this`errors, this`warnings
      ensures RanTo(job, outs, idx + 1, Progress(lines', seen', stats, errors, warnings))
    {
      assert RunRows(job, outs, idx) == Progress(lines, seen, stats, errors, warnings);
      var outcome := ProcessRow(columns, rows, idx, movement, cy, outs);
      lines', seen' := Admit(job, idx, outcome, lines, seen);
    }

    /** The body of the loop of lines 1279-1327 after `_process_guest`: `Sort` on the converter's state. */
    method Admit(job: Job, idx: nat, outcome: Result<Option<GuestRecord>>, lines: seq<string>, seen: set<string>)
      returns (lines': seq<string>, seen': set<string>)
      modifies this`stats, this`errors, this`warnings
      ensures Progress(lines', seen', stats, errors, warnings)
        == Sort(job, Progress(lines, seen, old(stats), old(errors), old(warnings)), idx, outcome)
    {
      lines', seen' := lines, seen;
      match outcome {
        case Raised(message) =>
          stats := stats.(skipped := stats.skipped + 1);
          errors := errors + [RowMessage(idx + 2, "Error inesperado - " + message)];
        case Ok(None) =>
          stats := stats.(colombianos := stats.colombianos + 1);
        case Ok(Some(g)) =>
          if !g.isValid {
            stats := stats.(skipped := stats.skipped + 1);
            AppendAll(g.rowNumber, g.errors, true);
          } else {
            var key := Key(g, job.movement);
            if key in seen {
              stats := stats.(duplicados := stats.duplicados + 1);
            } else {
              seen' := seen + {key};
              lines' := lines + [Join("\t", LineFields(job, g))];
              stats := stats.(valid := stats.valid + 1);
              AppendAll(g.rowNumber, g.warnings, false);
            }
          }
      }
    }

    /** The `for` loops of lines 1289-1290 and 1321-1322: one row's messages, prefixed. */
    method AppendAll(rowNumber: int, messages: seq<string>, toErrors: bool)
      modifies this`errors, this`warnings
      ensures toErrors ==> errors == old(errors) + Prefixed(rowNumber, messages) && warnings == old(warnings)
      ensures !toErrors ==> warnings == old(warnings) + Prefixed(rowNumber, messages) && errors == old(errors)
    {
      var k := 0;
      while k < |messages|
        invariant 0 <= k <= |messages|
        invariant toErrors ==> errors == old(errors) + Prefixed(rowNumber, messages[..k]) && warnings == old(warnings)
        invariant !toErrors ==> warnings == old(warnings) + Prefixed(rowNumber, messages[..k]) && errors == old(errors)
      {
        assert messages[..k + 1][..k] == messages[..k];
        if toErrors {
          errors := errors + [RowMessage(rowNumber, messages[k])];
        } else {
          warnings := warnings + [RowMessage(rowNumber, messages[k])];
        }
        k := k + 1;
      }
      assert messages[..k] == messages;
    }
  }

  // ---------------------------------------------------------------- properties of the pass

  /** One row adds to exactly one counter and keeps lines and keys in step with `valid`. */
  lemma StepCounts(job: Job, st: Progress, idx: nat, p: Processed)
    requires |st.lines| == st.stats.valid == |st.seen|
    ensures var r := Step(job, st, idx, p);
      r.stats.total == st.stats.total
      && r.stats.valid + r.stats.skipped + r.stats.colombianos + r.stats.duplicados
         == st.stats.valid + st.stats.skipped + st.stats.colombianos + st.stats.duplicados + 1
      && |r.lines| == r.stats.valid == |r.seen|
  {
  }

  /**
   * Every row lands in exactly one of the four counters, `total` is the row
   * count, and there is one line and one remembered key per valid row.
   */
  lemma {:induction false} RunCounts(job: Job, outs: seq<Processed>, n: nat)
    requires n <= |outs|
    ensures var r := RunRows(job, outs, n);
      r.stats.total == |outs|
      && r.stats.valid + r.stats.skipped + r.stats.colombianos + r.stats.duplicados == n
      && |r.lines| == r.stats.valid && |r.seen| == r.stats.valid
  {
    if n > 0 {
      RunCounts(job, outs, n - 1);
      StepCounts(job, RunRows(job, outs, n - 1), n - 1, outs[n - 1]);
    }
  }
}
