/**
 * What one run of `convert` (sire_converter.py:1247-1329) promises about the
 * rows it is given, stated against a per-row verdict that does not carry the
 * loop's state: every row is written, skipped, set aside as Colombian or
 * dropped as a duplicate; the first valid row with a given key is the one
 * written; the counters count the verdicts; and every written line splits back
 * into its 13 fields.  The properties of a row's outcome hold whichever
 * resolvers the pass runs, as written or corrected.
 */
module PassProperties {
  import opened Wrappers
  import opened Strings
  import opened Cells
  import opened Records
  import opened SireConverter
  import DocumentValidator
  import DateParser

  // ---------------------------------------------------------------- a verdict per row

  /** A row's outcome is a record that passed the final check. */
  predicate IsValidRecord(p: Processed) {
    p.outcome.Ok? && p.outcome.value.Some? && p.outcome.value.value.isValid
  }

  /** The duplicate keys of the valid records among the first `n` rows. */
  function ValidKeys(job: Job, outs: seq<Processed>, n: nat): (ks: set<string>)
    requires n <= |outs|
    ensures forall i :: 0 <= i < n && IsValidRecord(outs[i]) ==> Key(outs[i].outcome.value.value, job.movement) in ks
  {
    if n == 0 then {}
    else
      var p := outs[n - 1];
      ValidKeys(job, outs, n - 1) + if IsValidRecord(p) then {Key(p.outcome.value.value, job.movement)} else {}
  }

  /** Where a row ends up. */
  datatype Kind = Written | Skipped | Domestic | Duplicate

  /**
   * Row `i`'s verdict: an exception or a record with errors is skipped; `None`
   * is a Colombian guest; a valid record is a duplicate exactly when an earlier
   * valid record has its key.
   */
  function Verdict(job: Job, outs: seq<Processed>, i: nat): Kind
    requires i < |outs|
  {
    match outs[i].outcome
    case Raised(_) => Skipped
    case Ok(None) => Domestic
    case Ok(Some(g)) =>
      if !g.isValid then Skipped
      else if Key(g, job.movement) in ValidKeys(job, outs, i) then Duplicate
      else Written
  }

  /** How many of the first `n` rows have verdict `k`. */
  function Tally(job: Job, outs: seq<Processed>, n: nat, k: Kind): (t: nat)
    requires n <= |outs|
    ensures t <= n
  {
    if n == 0 then 0 else Tally(job, outs, n - 1, k) + if Verdict(job, outs, n - 1) == k then 1 else 0
  }

  /** The inferences made on the first `n` rows. */
  function Inferred(outs: seq<Processed>, n: nat): nat
    requires n <= |outs|
  {
    if n == 0 then 0 else Inferred(outs, n - 1) + outs[n - 1].inferred
  }

  /** The line of each written row among the first `n`, in row order. */
  function Emitted(job: Job, outs: seq<Processed>, n: nat): seq<string>
    requires n <= |outs|
  {
    if n == 0 then []
    else if Verdict(job, outs, n - 1) == Written
    then Emitted(job, outs, n - 1) + [Join("\t", LineFields(job, outs[n - 1].outcome.value.value))]
    else Emitted(job, outs, n - 1)
  }

  /** The messages a skipped row leaves in `errors`. */
  function RowErrors(p: Processed, idx: nat): seq<string> {
    match p.outcome
    case Raised(message) => [RowMessage(idx + 2, "Error inesperado - " + message)]
    case Ok(None) => []
    case Ok(Some(g)) => Prefixed(g.rowNumber, g.errors)
  }

  /** The errors of the skipped rows among the first `n`, in row order. */
  function Reported(job: Job, outs: seq<Processed>, n: nat): seq<string>
    requires n <= |outs|
  {
    if n == 0 then []
    else if Verdict(job, outs, n - 1) == Skipped then Reported(job, outs, n - 1) + RowErrors(outs[n - 1], n - 1)
    else Reported(job, outs, n - 1)
  }

  /** The warnings of the written rows among the first `n`, in row order. */
  function Warned(job: Job, outs: seq<Processed>, n: nat): seq<string>
    requires n <= |outs|
  {
    if n == 0 then []
    else if Verdict(job, outs, n - 1) == Written
    then var g := outs[n - 1].outcome.value.value; Warned(job, outs, n - 1) + Prefixed(g.rowNumber, g.warnings)
    else Warned(job, outs, n - 1)
  }

  // ---------------------------------------------------------------- the loop follows the verdicts

  /**
   * After `n` rows the remembered keys are those of the valid records, the lines,
   * errors and warnings are those of the verdicts, and each counter counts its
   * verdict.
   */
  lemma {:induction false} RunByVerdict(job: Job, outs: seq<Processed>, n: nat)
    requires n <= |outs|
    ensures var r := RunRows(job, outs, n);
      r.seen == ValidKeys(job, outs, n)
      && r.lines == Emitted(job, outs, n)
      && r.errors == Reported(job, outs, n)
      && r.warnings == Warned(job, outs, n)
      && r.stats == Stats(|outs|, Tally(job, outs, n, Written), Tally(job, outs, n, Skipped),
                          Tally(job, outs, n, Domestic), Tally(job, outs, n, Duplicate), Inferred(outs, n))
  {
    if n > 0 {
      RunByVerdict(job, outs, n - 1);
      assert RunRows(job, outs, n - 1) == ByVerdict(job, outs, n - 1);
      StepByVerdict(job, outs, n - 1);
    }
  }

  /** The state `RunByVerdict` describes after `n` rows. */
  function ByVerdict(job: Job, outs: seq<Processed>, n: nat): Progress
    requires n <= |outs|
  {
    Progress(Emitted(job, outs, n), ValidKeys(job, outs, n),
             Stats(|outs|, Tally(job, outs, n, Written), Tally(job, outs, n, Skipped),
                   Tally(job, outs, n, Domestic), Tally(job, outs, n, Duplicate), Inferred(outs, n)),
             Reported(job, outs, n), Warned(job, outs, n))
  }

  /** One row moves that state on by its verdict. */
  lemma StepByVerdict(job: Job, outs: seq<Processed>, n: nat)
    requires n < |outs|
    ensures Step(job, ByVerdict(job, outs, n), n, outs[n]) == ByVerdict(job, outs, n + 1)
  {
  }

  /** A key among the valid records is the key of a written row at or before them. */
  lemma {:induction false} KeyFirstWritten(job: Job, outs: seq<Processed>, n: nat, key: string)
    requires n <= |outs| && key in ValidKeys(job, outs, n)
    ensures exists j :: 0 <= j < n && Verdict(job, outs, j) == Written && Key(outs[j].outcome.value.value, job.movement) == key
  {
    var p := outs[n - 1];
    if key in ValidKeys(job, outs, n - 1) {
      KeyFirstWritten(job, outs, n - 1, key);
      var j :| 0 <= j < n - 1 && Verdict(job, outs, j) == Written && Key(outs[j].outcome.value.value, job.movement) == key;
      assert 0 <= j < n;
    } else {
      assert Verdict(job, outs, n - 1) == Written;
    }
  }

  /**
   * The first occurrence wins: a written row's key belongs to no earlier valid
   * record, and a duplicate's key is that of an earlier written row.
   */
  lemma FirstOccurrenceWins(job: Job, outs: seq<Processed>, i: nat)
    requires i < |outs|
    ensures Verdict(job, outs, i) == Written ==>
      forall j :: 0 <= j < i && IsValidRecord(outs[j]) ==>
        Key(outs[j].outcome.value.value, job.movement) != Key(outs[i].outcome.value.value, job.movement)
    ensures Verdict(job, outs, i) == Duplicate ==>
      exists j :: 0 <= j < i && Verdict(job, outs, j) == Written
        && Key(outs[j].outcome.value.value, job.movement) == Key(outs[i].outcome.value.value, job.movement)
  {
    if Verdict(job, outs, i) == Duplicate {
      KeyFirstWritten(job, outs, i, Key(outs[i].outcome.value.value, job.movement));
    }
  }

  // ---------------------------------------------------------------- what a row's outcome is

  /** A Colombian guest is one with a valid document whose nationality resolves to 169. */
  lemma DomesticIff(rs: Resolvers, cm: ColumnMap, columns: seq<string>, row: seq<Cell>, idx: nat, movement: string, cy: CurrentYear)
    ensures Process(rs, cm, columns, row, idx, movement, cy).outcome == Ok(None) <==>
      DocumentValidator.ValidateDocument(RowDocument(cm, columns, row)).0
      && NationalityOf(rs, cm, columns, row).code == Colombia
  {
    var rd := Read(rs, cm, columns, row, movement, cy);
    assert Process(rs, cm, columns, row, idx, movement, cy) == Assemble(idx, rd);
  }

  /**
   * A row raises exactly when its document is valid, its guest is foreign and
   * one of its two date cells is NaT; the message is NaT's.
   */
  lemma RaisedIff(rs: Resolvers, cm: ColumnMap, columns: seq<string>, row: seq<Cell>, idx: nat, movement: string, cy: CurrentYear)
    ensures var p := Process(rs, cm, columns, row, idx, movement, cy);
      (p.outcome.Raised? <==>
        DocumentValidator.ValidateDocument(RowDocument(cm, columns, row)).0
        && NationalityOf(rs, cm, columns, row).code != Colombia
        && (Value(cm, columns, row, MovementField(movement)).NaT? || Value(cm, columns, row, ColumnDetector.FechaNacimiento).NaT?))
      && (p.outcome.Raised? ==> p.outcome.message == DateParser.NaTMessage)
  {
    var rd := Read(rs, cm, columns, row, movement, cy);
    assert Process(rs, cm, columns, row, idx, movement, cy) == Assemble(idx, rd);
  }

  /** A record that reaches a line: tab-free fields, its document, and a foreign nationality. */
  predicate Clean(p: Processed) {
    IsValidRecord(p) ==>
      var g := p.outcome.value.value;
      TabFreeGuest(g) && NoTab(ValueOr(g.documento, "")) && ValueOr(g.nacionalidad, "") != Colombia
  }

  /** Every valid record of a row whose document holds no tab is clean. */
  lemma ProcessClean(rs: Resolvers, cm: ColumnMap, columns: seq<string>, row: seq<Cell>, idx: nat, movement: string, cy: CurrentYear)
    requires NoTab(RowDocument(cm, columns, row))
    ensures Clean(Process(rs, cm, columns, row, idx, movement, cy))
  {
    var rd := Read(rs, cm, columns, row, movement, cy);
    assert Process(rs, cm, columns, row, idx, movement, cy) == Assemble(idx, rd);
    AssembleClean(idx, rd);
  }

  /** A record assembled from a tab-free document is clean. */
  lemma AssembleClean(idx: nat, rd: Readings)
    requires Sound(rd) && NoTab(rd.document)
    ensures Clean(Assemble(idx, rd))
  {
  }

  // ---------------------------------------------------------------- the lines

  /** A SIRE line of tab-free fields splits back into its 13 fields. */
  lemma LineReadsBack(job: Job, g: GuestRecord)
    requires NoTab(job.hotelCode) && NoTab(job.cityCode) && NoTab(job.movement)
    requires TabFreeGuest(g) && NoTab(ValueOr(g.documento, ""))
    ensures SplitOn(Join("\t", LineFields(job, g)), '\t') == LineFields(job, g)
  {
    var fs := LineFields(job, g);
    assert forall i :: 0 <= i < |fs| ==> '\t' !in fs[i];
    SplitOnJoin(fs, '\t');
  }

  /** A line that splits into 13 fields carrying the job's codes, its movement and a foreign nationality. */
  predicate Shaped(job: Job, line: string) {
    var fs := SplitOn(line, '\t');
    |fs| == 13 && fs[0] == job.hotelCode && fs[1] == job.cityCode && fs[8] == job.movement && fs[4] != Colombia
  }

  /** The line of a clean valid record is shaped. */
  lemma LineShaped(job: Job, p: Processed)
    requires NoTab(job.hotelCode) && NoTab(job.cityCode) && NoTab(job.movement)
    requires IsValidRecord(p) && Clean(p)
    ensures Shaped(job, Join("\t", LineFields(job, p.outcome.value.value)))
  {
    var g := p.outcome.value.value;
    LineReadsBack(job, g);
    assert LineFields(job, g)[4] == ValueOr(g.nacionalidad, "");
  }

  /**
   * When the codes and every valid record are tab-free, every written line splits
   * into 13 fields: the hotel and city codes, the movement type, and a
   * nationality other than Colombia's.
   */
  lemma {:induction false} LinesReadBack(job: Job, outs: seq<Processed>, n: nat)
    requires n <= |outs|
    requires NoTab(job.hotelCode) && NoTab(job.cityCode) && NoTab(job.movement)
    requires forall i :: 0 <= i < |outs| ==> Clean(outs[i])
    ensures forall k :: 0 <= k < |RunRows(job, outs, n).lines| ==> Shaped(job, RunRows(job, outs, n).lines[k])
  {
    if n > 0 {
      LinesReadBack(job, outs, n - 1);
      var p := outs[n - 1];
      var before := RunRows(job, outs, n - 1).lines;
      var after := RunRows(job, outs, n).lines;
      if IsValidRecord(p) && Key(p.outcome.value.value, job.movement) !in RunRows(job, outs, n - 1).seen {
        LineShaped(job, p);
        var line := Join("\t", LineFields(job, p.outcome.value.value));
        assert after == before + [line];
      } else {
        assert after == before;
      }
    }
  }

  /**
   * The whole pass: when the codes, the movement type and every row's document
   * are tab-free, every line `convert` writes splits back into its 13 fields.
   */
  lemma RunLinesShaped(rs: Resolvers, job: Job, cm: ColumnMap, ds: Dataset, cy: CurrentYear)
    requires NoTab(job.hotelCode) && NoTab(job.cityCode) && NoTab(job.movement)
    requires forall i :: 0 <= i < |ds.rows| ==> NoTab(RowDocument(cm, ds.columns, ds.rows[i]))
    ensures forall k :: 0 <= k < |Run(rs, job, cm, ds, cy).lines| ==> Shaped(job, Run(rs, job, cm, ds, cy).lines[k])
  {
    var outs := RunThrough(rs, job, cm, ds, cy);
    forall i | 0 <= i < |outs| ensures Clean(outs[i]) {
      ProcessClean(rs, cm, ds.columns, ds.rows[i], i, job.movement, cy);
    }
    LinesReadBack(job, outs, |outs|);
  }
}
