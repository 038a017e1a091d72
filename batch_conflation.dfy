/**
 * The batch tool (`NPMRDS` class): every project line of a feature class is conflated
 * with the four TMC directions, trimmed to the directions the project runs along, and
 * stacked into one long table of `(measure, value)` records tagged with the project.
 */
module BatchConflation {
  import opened Wrappers
  import opened Strings
  import opened PyDict
  import opened Aggregation
  import opened ConflatedRows
  import opened RowSelection
  import opened KeyParsing
  import opened ForbiddenChars
  import opened TmcRows

  /** `spd_data_calc_dict`: speeds by the guarded inverse average, LOTTRs by distance weighting. */
  const FieldTable: seq<Field> := [
    ("ff_speed_art60thp", InvAvgGuarded),
    ("havg_spd_worst4hrs", InvAvgGuarded),
    ("lottr_ampk", DistanceWeightedAvg),
    ("lottr_md", DistanceWeightedAvg),
    ("lottr_pmpk", DistanceWeightedAvg),
    ("lottr_wknd", DistanceWeightedAvg)]

  /** The most columns `simplify_outputs` may return before the script stops in the debugger. */
  const MaxOutColumns := 14

  lemma FieldTableIsOk()
    ensures FieldTableOk(FieldTable)
  {
    var names := KeysOf(FieldTable);
    assert names == ["ff_speed_art60thp", "havg_spd_worst4hrs", "lottr_ampk", "lottr_md", "lottr_pmpk", "lottr_wknd"];
    assert Distinct(names);
    FieldNamesPlain();
  }

  /** No field name holds "_c" (so none contains "_calc_len") or a 'B'. */
  lemma FieldNamesPlain()
    ensures forall i :: 0 <= i < |FieldTable| ==> !Contains(FieldTable[i].0, CalcLenSuffix) && NoChar(FieldTable[i].0, 'B')
  {
    forall i | 0 <= i < |FieldTable|
      ensures !Contains(FieldTable[i].0, CalcLenSuffix) && NoChar(FieldTable[i].0, 'B')
    {
      assert NoPair(FieldTable[i].0, '_', 'c');
      NoPairNotContains(FieldTable[i].0, CalcLenSuffix);
    }
  }

  /** What `simplify_outputs` hands back: a list of records, or a DataFrame's columns. */
  datatype Simplified = Records(records: seq<seq<Column>>) | Frame(cols: seq<Column>)

  /**
   * `simplify_outputs`: the no-data record when the longest covered length is under 10% of
   * the project; otherwise the longest direction's columns, followed by the second
   * direction's only when its covered length exceeds 75% of the longest.
   */
  function SimplifyOutputs(cols: seq<Column>): (r: Simplified)
    requires Simplifiable(cols)
    ensures r.Records? <==> ChooseDirections(cols).NoOverlap?
    ensures r.Records? ==> r.records == [NoDataRecord()]
  {
    match ChooseDirections(cols)
    case NoOverlap => Records([NoDataRecord()])
    case Overlap(maxCol, maxLen, secCol, secLen) =>
      var outMax := SelectPrefix(cols, DirOf(maxCol));
      if Above(Ratio(secLen, maxLen), TwoWayShare) then
        Frame(outMax + SelectPrefix(cols, DirOf(secCol)))
      else Frame(outMax)
  }

  /**
   * On the row `conflate_tmc2projline` builds, the outcome in terms of the directions: no data
   * when the first longest covered length is under 10% of the project, else that direction's
   * block, followed by the block of the first longest among the others when it is two-way.
   */
  lemma SimplifyOnConflatedRow(projLen: real, rs: seq<DirResult>)
    requires WellFormedResults(rs) && |rs| >= 2
    ensures Simplifiable(RowColumns(projLen, rs))
    ensures var lens := CalcLens(rs);
      var p := FirstMax(lens);
      var q := SecondMax(lens, p);
      SimplifyOutputs(RowColumns(projLen, rs)) ==
        if Below(Ratio(lens[p], projLen), MinOverlapShare) then Records([NoDataRecord()])
        else if Above(Ratio(lens[q], lens[p]), TwoWayShare) then Frame(DirColumns(rs[p]) + DirColumns(rs[q]))
        else Frame(DirColumns(rs[p]))
  {
    ChooseOnConflatedRow(projLen, rs);
    SelectedBlocks(projLen, rs);
  }

  /**
   * For a project of positive length there is no data exactly when EVERY direction covers
   * strictly less than 10% of it: exactly 10% counts as data.
   */
  lemma NoDataThreshold(projLen: real, rs: seq<DirResult>)
    requires WellFormedResults(rs) && |rs| >= 2 && projLen > 0.0
    ensures Simplifiable(RowColumns(projLen, rs))
    ensures SimplifyOutputs(RowColumns(projLen, rs)).Records? <==>
      forall i :: 0 <= i < |rs| ==> rs[i].calcLen < MinOverlapShare * projLen
  {
    SimplifyOnConflatedRow(projLen, rs);
    CoverageTest(projLen, rs);
  }

  /**
   * When there is data, the second direction's block follows the first exactly when its
   * covered length is strictly more than 75% of the longest (exactly 75% is one-way).
   */
  lemma TwoWayThreshold(projLen: real, rs: seq<DirResult>, i: nat)
    requires WellFormedResults(rs) && |rs| >= 2 && projLen > 0.0
    requires i < |rs| && rs[i].calcLen >= MinOverlapShare * projLen
    ensures Simplifiable(RowColumns(projLen, rs))
    ensures var lens := CalcLens(rs);
      var p := FirstMax(lens);
      var q := SecondMax(lens, p);
      SimplifyOutputs(RowColumns(projLen, rs)) ==
        if lens[q] > TwoWayShare * lens[p] then Frame(DirColumns(rs[p]) + DirColumns(rs[q]))
        else Frame(DirColumns(rs[p]))
  {
    var lens := CalcLens(rs);
    var p := FirstMax(lens);
    Covered(projLen, rs, i);
    SimplifyWithData(projLen, rs);
    TwoWayTest(lens, p, SecondMax(lens, p));
  }

  lemma TwoWayTest(lens: seq<real>, p: nat, q: nat)
    requires p < |lens| && q < |lens| && lens[p] > 0.0 && lens[q] >= 0.0
    ensures Above(Ratio(lens[q], lens[p]), TwoWayShare) <==> lens[q] > TwoWayShare * lens[p]
  {
    RatioCompare(lens[q], lens[p], TwoWayShare);
  }

  lemma SimplifyWithData(projLen: real, rs: seq<DirResult>)
    requires WellFormedResults(rs) && |rs| >= 2
    requires !Below(Ratio(CalcLens(rs)[FirstMax(CalcLens(rs))], projLen), MinOverlapShare)
    ensures Simplifiable(RowColumns(projLen, rs))
    ensures var lens := CalcLens(rs);
      var p := FirstMax(lens);
      var q := SecondMax(lens, p);
      SimplifyOutputs(RowColumns(projLen, rs)) ==
        if Above(Ratio(lens[q], lens[p]), TwoWayShare) then Frame(DirColumns(rs[p]) + DirColumns(rs[q]))
        else Frame(DirColumns(rs[p]))
  {
    SimplifyOnConflatedRow(projLen, rs);
  }

  // ---------------------------------------------------------------- one project

  /**
   * `get_npmrds_data_project` as written: it transposes whatever `simplify_outputs` returned
   * with `.T`, and the no-data list of records has no such attribute.
   */
  function ProjectTableAsWritten(cols: seq<Column>): Result<seq<Column>, PyError>
    requires Simplifiable(cols)
  {
    match SimplifyOutputs(cols)
    case Records(_) => Err(AttributeError("T"))
    case Frame(c) => Ok(c)
  }

  /** The project's table with the no-data record kept as a one-row table, as the single-project tool reports it. */
  function ProjectTable(cols: seq<Column>): seq<Column>
    requires Simplifiable(cols)
  {
    match SimplifyOutputs(cols)
    case Records(_) => NoDataRecord()
    case Frame(c) => c
  }

  /** Where the script as written gets a table, it is the same table; it fails exactly on the no-data outcome. */
  lemma ProjectTableAgrees(cols: seq<Column>)
    requires Simplifiable(cols)
    ensures ProjectTableAsWritten(cols).Ok? ==> ProjectTableAsWritten(cols).value == ProjectTable(cols)
    ensures ProjectTableAsWritten(cols).Err? <==> ProjectTable(cols) == NoDataRecord() && ChooseDirections(cols).NoOverlap?
  {
  }

  /** What one project contributes: the columns of the directions it runs along, or the no-data record. */
  function ProjectOutput(projLen: real, piecesByDir: seq<seq<Piece>>): seq<Column>
    requires |piecesByDir| == |TmcDirections|
  {
    FieldTableIsOk();
    TmcRowShape(FieldTable, projLen, piecesByDir);
    ProjectTable(RowColumns(projLen, TmcResults(FieldTable, piecesByDir)))
  }

  /** `get_npmrds_data_project`, with the no-data outcome kept as a one-row table. */
  method GetNpmrdsDataProject(projLen: real, piecesByDir: seq<seq<Piece>>) returns (table: seq<Column>)
    requires |piecesByDir| == |TmcDirections|
    ensures table == ProjectOutput(projLen, piecesByDir)
  {
    var row := ConflateTmc2ProjLine(projLen, TmcDirections, piecesByDir, FieldTable);
    FieldTableIsOk();
    TmcRowShape(FieldTable, projLen, piecesByDir);
    var cols := Items(row);
    table := ProjectTable(cols);
  }

  /**
   * A project whose every direction covers less than 10% of its length makes the script as
   * written fail (and with it the whole batch); the corrected table is the no-data record.
   */
  lemma NoDataProjectFails(projLen: real, piecesByDir: seq<seq<Piece>>)
    requires |piecesByDir| == |TmcDirections| && projLen > 0.0
    requires forall i :: 0 <= i < |TmcDirections| ==> SumLen(Retained(piecesByDir[i])) < MinOverlapShare * projLen
    ensures Simplifiable(RowColumns(projLen, TmcResults(FieldTable, piecesByDir)))
    ensures ProjectTableAsWritten(RowColumns(projLen, TmcResults(FieldTable, piecesByDir))) == Err(AttributeError("T"))
    ensures ProjectOutput(projLen, piecesByDir) == NoDataRecord()
  {
    NoDataProjectChoice(projLen, piecesByDir);
  }

  /** Below the 10% threshold in every direction, `simplify_outputs` returns the list of records. */
  lemma NoDataProjectChoice(projLen: real, piecesByDir: seq<seq<Piece>>)
    requires |piecesByDir| == |TmcDirections| && projLen > 0.0
    requires forall i :: 0 <= i < |TmcDirections| ==> SumLen(Retained(piecesByDir[i])) < MinOverlapShare * projLen
    ensures Simplifiable(RowColumns(projLen, TmcResults(FieldTable, piecesByDir)))
    ensures SimplifyOutputs(RowColumns(projLen, TmcResults(FieldTable, piecesByDir))).Records?
  {
    FieldTableIsOk();
    TmcRowShape(FieldTable, projLen, piecesByDir);
    NoDataThreshold(projLen, TmcResults(FieldTable, piecesByDir));
  }

  /** For instance a 1000 ft project line that no TMC buffer reaches. */
  lemma NoDataProjectExample()
    ensures Simplifiable(RowColumns(1000.0, TmcResults(FieldTable, [[], [], [], []])))
    ensures ProjectTableAsWritten(RowColumns(1000.0, TmcResults(FieldTable, [[], [], [], []]))).Err?
  {
    var pbd: seq<seq<Piece>> := [[], [], [], []];
    forall i | 0 <= i < |TmcDirections|
      ensures SumLen(Retained(pbd[i])) < MinOverlapShare * 1000.0
    {
      assert Retained(pbd[i]) == [];
    }
    NoDataProjectFails(1000.0, pbd);
  }

  /**
   * The outcome for a project of positive length, stated on the pieces: no data when every
   * direction's retained length is under 10% of the project; otherwise the block of the
   * first direction (in the order N, S, E, W) with the longest retained length, then the
   * block of the first longest among the others when it exceeds 75% of the longest.
   */
  lemma ProjectOutputCases(projLen: real, piecesByDir: seq<seq<Piece>>)
    requires |piecesByDir| == |TmcDirections| && projLen > 0.0
    ensures var rs := TmcResults(FieldTable, piecesByDir);
      var lens := CalcLens(rs);
      var p := FirstMax(lens);
      var q := SecondMax(lens, p);
      ProjectOutput(projLen, piecesByDir) ==
        if forall i :: 0 <= i < |rs| ==> rs[i].calcLen < MinOverlapShare * projLen then NoDataRecord()
        else if lens[q] > TwoWayShare * lens[p] then DirColumns(rs[p]) + DirColumns(rs[q])
        else DirColumns(rs[p])
  {
    var rs := TmcResults(FieldTable, piecesByDir);
    FieldTableIsOk();
    TmcRowShape(FieldTable, projLen, piecesByDir);
    NoDataThreshold(projLen, rs);
    if !forall i :: 0 <= i < |rs| ==> rs[i].calcLen < MinOverlapShare * projLen {
      var i :| 0 <= i < |rs| && rs[i].calcLen >= MinOverlapShare * projLen;
      TwoWayThreshold(projLen, rs, i);
    }
  }

  /**
   * The debugger stop for more than 14 columns is never reached: a project yields the
   * one no-data column, one block of 7 or two blocks of 7.
   */
  lemma ProjectOutputSize(projLen: real, piecesByDir: seq<seq<Piece>>)
    requires |piecesByDir| == |TmcDirections|
    ensures |ProjectOutput(projLen, piecesByDir)| in {1, 7, 14}
    ensures |ProjectOutput(projLen, piecesByDir)| <= MaxOutColumns
  {
    FieldTableIsOk();
    var p, q := ProjectOutputForms(projLen, piecesByDir);
    TmcBlock(FieldTable, piecesByDir, p);
    TmcBlock(FieldTable, piecesByDir, q);
  }

  /**
   * Every measure of a project with data splits into one of the four TMC directions and a
   * covered-length or field-table column; the only other outcome is the no-data record.
   */
  lemma ProjectOutputKeys(projLen: real, piecesByDir: seq<seq<Piece>>)
    requires |piecesByDir| == |TmcDirections|
    ensures var out := ProjectOutput(projLen, piecesByDir);
      out == NoDataRecord() || forall k :: 0 <= k < |out| ==> TmcMeasure(FieldTable, out[k].0)
  {
    var rs := TmcResults(FieldTable, piecesByDir);
    FieldTableIsOk();
    var p, q := ProjectOutputForms(projLen, piecesByDir);
    BlockKeys(FieldTable, piecesByDir, p);
    BlockKeys(FieldTable, piecesByDir, q);
    KeysConcat(FieldTable, DirColumns(rs[p]), DirColumns(rs[q]));
  }

  /** A project yields the no-data record, one direction's block, or two directions' blocks. */
  lemma ProjectOutputForms(projLen: real, piecesByDir: seq<seq<Piece>>) returns (p: nat, q: nat)
    requires |piecesByDir| == |TmcDirections|
    ensures p < |TmcDirections| && q < |TmcDirections| && p != q
    ensures var rs := TmcResults(FieldTable, piecesByDir);
      var out := ProjectOutput(projLen, piecesByDir);
      out == NoDataRecord() || out == DirColumns(rs[p]) || out == DirColumns(rs[p]) + DirColumns(rs[q])
  {
    var rs := TmcResults(FieldTable, piecesByDir);
    FieldTableIsOk();
    TmcRowShape(FieldTable, projLen, piecesByDir);
    SimplifyOnConflatedRow(projLen, rs);
    var lens := CalcLens(rs);
    p := FirstMax(lens);
    q := SecondMax(lens, p);
  }

  // ---------------------------------------------------------------- the batch

  /** One project line: its name, its length, and its split pieces per TMC direction. */
  datatype Project = Project(name: string, projLen: real, piecesByDir: seq<seq<Piece>>)

  predicate WellFormedProjects(projects: seq<Project>)
  {
    forall i :: 0 <= i < |projects| ==> |projects[i].piecesByDir| == |TmcDirections|
  }

  /**
   * One row of the combined table: `measure_full`, `value`, `proj_desc`, `proj_inum`,
   * `data_year`, and the `direction` and `measure` extracted from `measure_full` (None where
   * `str.extract` gives NaN).
   */
  datatype OutRecord = OutRecord(
    measureFull: string, value: Cell, projDesc: string, projInum: int, dataYear: int,
    direction: Option<string>, measure: Option<string>)

  function DirectionPart(key: string): Option<string>
  {
    match ParseKey(key)
    case None => None
    case Some(dm) => Some(dm.0)
  }

  function MeasurePart(key: string): Option<string>
  {
    match ParseKey(key)
    case None => None
    case Some(dm) => Some(dm.1)
  }

  /** A project's table, one record per column, tagged with the project and the year. */
  function TagRecords(table: seq<Column>, desc: string, inum: int, year: int): (r: seq<OutRecord>)
    ensures |r| == |table|
  {
    seq(|table|, k requires 0 <= k < |table| =>
      OutRecord(table[k].0, table[k].1, desc, inum, year, DirectionPart(table[k].0), MeasurePart(table[k].0)))
  }

  /** Each project's table, in cursor order. */
  function Outputs(projects: seq<Project>): seq<seq<Column>>
    requires WellFormedProjects(projects)
  {
    seq(|projects|, i requires 0 <= i < |projects| => ProjectOutput(projects[i].projLen, projects[i].piecesByDir))
  }

  /** The records of the projects with the given tables, the i-th project (from 0) numbered i + 1. */
  function Combined(projects: seq<Project>, tables: seq<seq<Column>>, year: int): seq<OutRecord>
    requires |tables| == |projects|
  {
    if projects == [] then []
    else
      var n := |projects| - 1;
      Combined(projects[..n], tables[..n], year) + TagRecords(tables[n], ReplaceForbidden(projects[n].name), n + 1, year)
  }

  lemma CombinedSnoc(projects: seq<Project>, tables: seq<seq<Column>>, year: int, i: nat)
    requires |tables| == |projects| && i < |projects|
    ensures Combined(projects[..i + 1], tables[..i + 1], year) ==
      Combined(projects[..i], tables[..i], year) + TagRecords(tables[i], ReplaceForbidden(projects[i].name), i + 1, year)
  {
    assert projects[..i + 1][..i] == projects[..i];
    assert tables[..i + 1][..i] == tables[..i];
  }

  /** `get_npmrds_data_batch` */
  method GetNpmrdsDataBatch(projects: seq<Project>, year: int) returns (comb: seq<OutRecord>)
    requires WellFormedProjects(projects)
    ensures comb == Combined(projects, Outputs(projects), year)
  {
    ghost var tables := Outputs(projects);
    comb := [];
    for i := 0 to |projects|
      invariant comb == Combined(projects[..i], tables[..i], year)
    {
      var inum := i + 1;
      var projName := RemoveForbiddenChars(projects[i].name);
      var projDf := GetNpmrdsDataProject(projects[i].projLen, projects[i].piecesByDir);
      CombinedSnoc(projects, tables, year, i);
      comb := comb + TagRecords(projDf, projName, inum, year);
    }
    assert projects[..|projects|] == projects;
    assert tables[..|projects|] == tables;
  }

  /**
   * Every record carries the number of the project it came from (1 to the number of
   * projects), that project's name with the forbidden characters replaced, and the year.
   */
  lemma {:induction false} CombinedTagged(projects: seq<Project>, tables: seq<seq<Column>>, year: int)
    requires |tables| == |projects|
    ensures forall k :: 0 <= k < |Combined(projects, tables, year)| ==>
      var r := Combined(projects, tables, year)[k];
      && 1 <= r.projInum <= |projects|
      && r.projDesc == ReplaceForbidden(projects[r.projInum - 1].name)
      && r.dataYear == year
  {
    if projects != [] {
      var n := |projects| - 1;
      CombinedTagged(projects[..n], tables[..n], year);
      var pre: seq<OutRecord> := Combined(projects[..n], tables[..n], year);
      var tail: seq<OutRecord> := TagRecords(tables[n], ReplaceForbidden(projects[n].name), n + 1, year);
      TagRecordsTagged(tables[n], ReplaceForbidden(projects[n].name), n + 1, year);
      forall k | 0 <= k < |pre + tail|
        ensures var r: OutRecord := (pre + tail)[k];
          && 1 <= r.projInum <= |projects|
          && r.projDesc == ReplaceForbidden(projects[r.projInum - 1].name)
          && r.dataYear == year
      {
        if k < |pre| {
          assert (pre + tail)[k] == pre[k];
          assert projects[..n][pre[k].projInum - 1] == projects[pre[k].projInum - 1];
        } else {
          assert (pre + tail)[k] == tail[k - |pre|];
        }
      }
    }
  }

  /** Every record of a project's table carries the project's description, number and the year. */
  lemma TagRecordsTagged(table: seq<Column>, desc: string, inum: int, year: int)
    ensures forall k :: 0 <= k < |table| ==>
      var r := TagRecords(table, desc, inum, year)[k];
      r.projDesc == desc && r.projInum == inum && r.dataYear == year
  {
  }

  /** No project description in the combined table holds '&', '%', '/' or ':'. */
  lemma CombinedDescriptionsClean(projects: seq<Project>, tables: seq<seq<Column>>, year: int)
    requires |tables| == |projects|
    ensures forall k :: 0 <= k < |Combined(projects, tables, year)| ==> Clean(Combined(projects, tables, year)[k].projDesc)
  {
    CombinedTagged(projects, tables, year);
    forall k | 0 <= k < |Combined(projects, tables, year)|
      ensures Clean(Combined(projects, tables, year)[k].projDesc)
    {
      var r := Combined(projects, tables, year)[k];
      ReplaceForbiddenClean(projects[r.projInum - 1].name);
    }
  }

  /**
   * The extracted direction and measure are present exactly when `measure_full` holds
   * "BOUND", and then they split it: direction ending in "BOUND", then the measure.
   */
  lemma TagRecordsSplit(table: seq<Column>, desc: string, inum: int, year: int)
    ensures forall k :: 0 <= k < |table| ==>
      var r := TagRecords(table, desc, inum, year)[k];
      && r.measureFull == table[k].0 && r.value == table[k].1
      && (r.direction.Some? <==> Contains(r.measureFull, Bound))
      && r.measure.Some? == r.direction.Some?
      && (r.direction.Some? ==> r.direction.value + r.measure.value == r.measureFull && EndsWithBound(r.direction.value))
  {
    forall k | 0 <= k < |table|
      ensures var r := TagRecords(table, desc, inum, year)[k];
        && (r.direction.Some? <==> Contains(r.measureFull, Bound))
        && (r.direction.Some? ==> r.direction.value + r.measure.value == r.measureFull && EndsWithBound(r.direction.value))
    {
      ParseKeyNone(table[k].0);
      if ParseKey(table[k].0).Some? {
        ParseKeySplits(table[k].0);
      }
    }
  }

  // ---------------------------------------------------------------- the batch as written

  /** `get_npmrds_data_project` as written, on one project's pieces: the `.T` fails on the no-data outcome. */
  function ProjectOutputAsWritten(projLen: real, piecesByDir: seq<seq<Piece>>): (r: Result<seq<Column>, PyError>)
    requires |piecesByDir| == |TmcDirections|
    ensures r.Ok? ==> r.value == ProjectOutput(projLen, piecesByDir)
    ensures r.Err? ==> r.error == AttributeError("T")
    ensures r.Err? <==> ProjectOutput(projLen, piecesByDir) == NoDataRecord()
  {
    FieldTableIsOk();
    TmcRowShape(FieldTable, projLen, piecesByDir);
    ProjectTableAgrees(RowColumns(projLen, TmcResults(FieldTable, piecesByDir)));
    FailsExactlyOnNoData(projLen, piecesByDir);
    ProjectTableAsWritten(RowColumns(projLen, TmcResults(FieldTable, piecesByDir)))
  }

  /**
   * A data table has 7 or 14 columns and the no-data record one, so the `.T` fails exactly
   * where the corrected table is the no-data record.
   */
  lemma FailsExactlyOnNoData(projLen: real, piecesByDir: seq<seq<Piece>>)
    requires |piecesByDir| == |TmcDirections|
    ensures Simplifiable(RowColumns(projLen, TmcResults(FieldTable, piecesByDir)))
    ensures ProjectTableAsWritten(RowColumns(projLen, TmcResults(FieldTable, piecesByDir))).Err? <==>
      ProjectOutput(projLen, piecesByDir) == NoDataRecord()
  {
    var rs := TmcResults(FieldTable, piecesByDir);
    FieldTableIsOk();
    TmcRowShape(FieldTable, projLen, piecesByDir);
    SimplifyOnConflatedRow(projLen, rs);
    var lens := CalcLens(rs);
    var p := FirstMax(lens);
    var q := SecondMax(lens, p);
    TmcBlock(FieldTable, piecesByDir, p);
    TmcBlock(FieldTable, piecesByDir, q);
    assert |NoDataRecord()| == 1 && |FieldTable| == 6;
  }

  /** Each project's table as written, in cursor order. */
  function OutputsAsWritten(projects: seq<Project>): seq<Result<seq<Column>, PyError>>
    requires WellFormedProjects(projects)
  {
    seq(|projects|, i requires 0 <= i < |projects| => ProjectOutputAsWritten(projects[i].projLen, projects[i].piecesByDir))
  }

  /**
   * The batch loop over the projects' table results: it has no exception handler, so the
   * first project whose result is an error ends the whole batch with that error.
   */
  function BatchOf(projects: seq<Project>, results: seq<Result<seq<Column>, PyError>>, year: int): Result<seq<OutRecord>, PyError>
    requires |results| == |projects|
  {
    if projects == [] then Ok([])
    else
      var n := |projects| - 1;
      match BatchOf(projects[..n], results[..n], year)
      case Err(e) => Err(e)
      case Ok(comb) =>
        match results[n]
        case Err(e) => Err(e)
        case Ok(table) => Ok(comb + TagRecords(table, ReplaceForbidden(projects[n].name), n + 1, year))
  }

  /** `get_npmrds_data_batch` as written. */
  function BatchAsWritten(projects: seq<Project>, year: int): Result<seq<OutRecord>, PyError>
    requires WellFormedProjects(projects)
  {
    BatchOf(projects, OutputsAsWritten(projects), year)
  }

  /**
   * Where every successful result is the corrected table and every error is `e`, the loop
   * completes exactly when no result is an error, with the combined table; otherwise it fails with `e`.
   */
  lemma {:induction false} BatchOfAgrees(projects: seq<Project>, results: seq<Result<seq<Column>, PyError>>,
                                         tables: seq<seq<Column>>, e: PyError, year: int)
    requires |results| == |projects| && |tables| == |projects|
    requires forall i :: 0 <= i < |results| && results[i].Ok? ==> results[i].value == tables[i]
    requires forall i :: 0 <= i < |results| && results[i].Err? ==> results[i].error == e
    ensures BatchOf(projects, results, year).Ok? <==> forall i :: 0 <= i < |results| ==> results[i].Ok?
    ensures BatchOf(projects, results, year).Ok? ==> BatchOf(projects, results, year).value == Combined(projects, tables, year)
    ensures BatchOf(projects, results, year).Err? ==> BatchOf(projects, results, year).error == e
  {
    if projects != [] {
      var n := |projects| - 1;
      BatchOfAgrees(projects[..n], results[..n], tables[..n], e, year);
      if !BatchOf(projects[..n], results[..n], year).Ok? {
        var i :| 0 <= i < n && !results[..n][i].Ok?;
        assert !results[i].Ok?;
      }
    }
  }

  /**
   * The batch as written completes exactly when no project's table fails, and then its
   * table is the corrected batch's combined table; otherwise it fails with the `.T` error.
   */
  lemma BatchAsWrittenAgrees(projects: seq<Project>, year: int)
    requires WellFormedProjects(projects)
    ensures BatchAsWritten(projects, year).Ok? <==>
      forall i :: 0 <= i < |projects| ==> ProjectOutputAsWritten(projects[i].projLen, projects[i].piecesByDir).Ok?
    ensures BatchAsWritten(projects, year).Ok? ==> BatchAsWritten(projects, year).value == Combined(projects, Outputs(projects), year)
    ensures BatchAsWritten(projects, year).Err? ==> BatchAsWritten(projects, year).error == AttributeError("T")
  {
    var rs := OutputsAsWritten(projects);
    var ts := Outputs(projects);
    forall i | 0 <= i < |rs|
      ensures rs[i] == ProjectOutputAsWritten(projects[i].projLen, projects[i].piecesByDir)
      ensures rs[i].Ok? ==> rs[i].value == ts[i]
      ensures rs[i].Err? ==> rs[i].error == AttributeError("T")
    {
      var r := ProjectOutputAsWritten(projects[i].projLen, projects[i].piecesByDir);
      assert rs[i] == r && ts[i] == ProjectOutput(projects[i].projLen, projects[i].piecesByDir);
    }
    BatchOfAgrees(projects, rs, ts, AttributeError("T"), year);
  }


  /** One project that no TMC covers to 10% in any direction makes the whole batch as written fail. */
  lemma BatchStopsAtNoData(projects: seq<Project>, year: int, i: nat)
    requires WellFormedProjects(projects) && i < |projects| && projects[i].projLen > 0.0
    requires forall d :: 0 <= d < |TmcDirections| ==>
      SumLen(Retained(projects[i].piecesByDir[d])) < MinOverlapShare * projects[i].projLen
    ensures BatchAsWritten(projects, year) == Err(AttributeError("T"))
  {
    NoDataProjectFails(projects[i].projLen, projects[i].piecesByDir);
    BatchAsWrittenAgrees(projects, year);
  }
}
