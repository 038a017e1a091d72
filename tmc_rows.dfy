/**
 * The conflated row both tools build for a project over the four TMC directions
 * (NORTHBOUND, SOUTHBOUND, EASTBOUND, WESTBOUND) with a field table of their own, and what
 * the two `simplify_outputs` share about it: the 10% coverage test and the measure names.
 */
module TmcRows {
  import opened Wrappers
  import opened Strings
  import opened PyDict
  import opened Aggregation
  import opened ConflatedRows
  import opened RowSelection
  import opened KeyParsing

  /**
   * A field table both tools can use: distinct names, each with a recognised method, none
   * containing "_calc_len" or a 'B' (so no name can be mistaken for a direction).
   */
  predicate FieldTableOk(fields: seq<Field>)
  {
    && WellFormedFields(fields)
    && (forall i :: 0 <= i < |fields| ==> fields[i].1 != Unrecognised)
    && (forall i :: 0 <= i < |fields| ==> NoChar(fields[i].0, 'B'))
  }

  lemma TmcDirectionsWellFormed()
    ensures WellFormedDirs(TmcDirections)
  {
  }

  /** The per-direction results of one project. */
  function TmcResults(fields: seq<Field>, piecesByDir: seq<seq<Piece>>): (rs: seq<DirResult>)
    requires |piecesByDir| == |TmcDirections|
    ensures |rs| == |TmcDirections|
  {
    ConflateSpec(TmcDirections, piecesByDir, fields)
  }

  /** The row has the shape `simplify_outputs` relies on, and as a dict it lists its columns in row order. */
  lemma TmcRowShape(fields: seq<Field>, projLen: real, piecesByDir: seq<seq<Piece>>)
    requires FieldTableOk(fields) && |piecesByDir| == |TmcDirections|
    ensures WellFormedResults(TmcResults(fields, piecesByDir))
    ensures Simplifiable(RowColumns(projLen, TmcResults(fields, piecesByDir)))
    ensures Valid(FromPairs(RowColumns(projLen, TmcResults(fields, piecesByDir))))
    ensures Items(FromPairs(RowColumns(projLen, TmcResults(fields, piecesByDir)))) == RowColumns(projLen, TmcResults(fields, piecesByDir))
  {
    TmcDirectionsWellFormed();
    ConflateSpecWellFormed(TmcDirections, piecesByDir, fields);
    ChooseOnConflatedRow(projLen, TmcResults(fields, piecesByDir));
    ConflatedRowShape(projLen, TmcResults(fields, piecesByDir));
  }

  /** With every field recognised, a direction's block is its covered length then one aggregate per field. */
  lemma TmcBlock(fields: seq<Field>, piecesByDir: seq<seq<Piece>>, i: nat)
    requires FieldTableOk(fields) && |piecesByDir| == |TmcDirections| && i < |TmcDirections|
    ensures TmcResults(fields, piecesByDir)[i].dir == TmcDirections[i]
    ensures KeysOf(TmcResults(fields, piecesByDir)[i].metrics) == KeysOf(fields)
    ensures |DirColumns(TmcResults(fields, piecesByDir)[i])| == 1 + |fields|
  {
    MetricsOfNames(fields, Retained(piecesByDir[i]));
    RecognisedNamesOf(fields);
  }

  // ---------------------------------------------------------------- the 10% coverage test

  /** The largest covered length is below a bound exactly when every covered length is. */
  lemma MaxBelow(rs: seq<DirResult>, t: real)
    requires |rs| >= 1
    ensures CalcLens(rs)[FirstMax(CalcLens(rs))] < t <==> forall i :: 0 <= i < |rs| ==> rs[i].calcLen < t
  {
    var lens := CalcLens(rs);
    var p := FirstMax(lens);
    if lens[p] < t {
      forall i | 0 <= i < |rs| ensures rs[i].calcLen < t { assert lens[i] <= lens[p]; }
    }
  }

  /**
   * For a project of positive length, the 10% test on the longest covered length is a test
   * on every covered length, strict: exactly 10% passes.
   */
  lemma CoverageTest(projLen: real, rs: seq<DirResult>)
    requires |rs| >= 1 && projLen > 0.0
    requires forall i :: 0 <= i < |rs| ==> rs[i].calcLen >= 0.0
    ensures var lens := CalcLens(rs);
      Below(Ratio(lens[FirstMax(lens)], projLen), MinOverlapShare) <==>
        forall i :: 0 <= i < |rs| ==> rs[i].calcLen < MinOverlapShare * projLen
  {
    var lens := CalcLens(rs);
    RatioCompare(lens[FirstMax(lens)], projLen, MinOverlapShare);
    MaxBelow(rs, MinOverlapShare * projLen);
  }

  /** A project with data has a positive longest covered length. */
  lemma Covered(projLen: real, rs: seq<DirResult>, i: nat)
    requires |rs| >= 1 && projLen > 0.0
    requires forall j :: 0 <= j < |rs| ==> rs[j].calcLen >= 0.0
    requires i < |rs| && rs[i].calcLen >= MinOverlapShare * projLen
    ensures CalcLens(rs)[FirstMax(CalcLens(rs))] > 0.0
    ensures !Below(Ratio(CalcLens(rs)[FirstMax(CalcLens(rs))], projLen), MinOverlapShare)
  {
    CoverageTest(projLen, rs);
    assert CalcLens(rs)[i] == rs[i].calcLen;
  }

  // ---------------------------------------------------------------- measure names

  lemma TmcDirectionsEndWithBound(i: nat)
    requires i < |TmcDirections|
    ensures EndsWithBound(TmcDirections[i])
  {
  }

  /**
   * `(.*BOUND).*` and `.*BOUND(.*)` on `d + m`, for one of the four TMC directions `d` and a
   * metric `m` without "BOUND", give back `d` and `m`.
   */
  lemma ParseTmcKey(i: nat, m: string)
    requires i < |TmcDirections| && !Contains(m, Bound)
    ensures ParseKey(TmcDirections[i] + m) == Some((TmcDirections[i], m))
  {
    TmcDirectionsEndWithBound(i);
    ParseKeyOfJoin(TmcDirections[i], m);
  }

  /** Every column of a direction's block splits back into that direction and the column's own metric name. */
  lemma DirColumnsKeys(r: DirResult, i: nat)
    requires i < |TmcDirections| && r.dir == TmcDirections[i]
    requires forall k :: 0 <= k < |r.metrics| ==> NoChar(r.metrics[k].0, 'B')
    ensures ParseKey(DirColumns(r)[0].0) == Some((r.dir, CalcLenSuffix))
    ensures forall k :: 0 <= k < |r.metrics| ==> ParseKey(DirColumns(r)[k + 1].0) == Some((r.dir, r.metrics[k].0))
  {
    NoHeadNotContains(CalcLenSuffix, Bound);
    ParseTmcKey(i, CalcLenSuffix);
    forall k | 0 <= k < |r.metrics|
      ensures ParseKey(DirColumns(r)[k + 1].0) == Some((r.dir, r.metrics[k].0))
    {
      NoHeadNotContains(r.metrics[k].0, Bound);
      ParseTmcKey(i, r.metrics[k].0);
    }
  }

  /** A measure name that splits into a TMC direction and a column of the field table. */
  predicate TmcMeasure(fields: seq<Field>, key: string)
  {
    && ParseKey(key).Some?
    && ParseKey(key).value.0 in TmcDirections
    && (ParseKey(key).value.1 == CalcLenSuffix || ParseKey(key).value.1 in KeysOf(fields))
  }

  lemma BlockKeys(fields: seq<Field>, piecesByDir: seq<seq<Piece>>, i: nat)
    requires FieldTableOk(fields) && |piecesByDir| == |TmcDirections| && i < |TmcDirections|
    ensures forall k :: 0 <= k < |DirColumns(TmcResults(fields, piecesByDir)[i])| ==>
      TmcMeasure(fields, DirColumns(TmcResults(fields, piecesByDir)[i])[k].0)
  {
    TmcBlock(fields, piecesByDir, i);
    DirResultKeys(fields, TmcResults(fields, piecesByDir)[i], i);
  }

  /** Every column of a block whose metric names are the field table's splits into a TMC measure. */
  lemma DirResultKeys(fields: seq<Field>, r: DirResult, i: nat)
    requires FieldTableOk(fields) && i < |TmcDirections|
    requires r.dir == TmcDirections[i] && KeysOf(r.metrics) == KeysOf(fields)
    ensures forall k :: 0 <= k < |DirColumns(r)| ==> TmcMeasure(fields, DirColumns(r)[k].0)
  {
    assert forall k :: 0 <= k < |r.metrics| ==> r.metrics[k].0 == KeysOf(fields)[k];
    DirColumnsKeys(r, i);
    forall k | 0 <= k < |DirColumns(r)|
      ensures TmcMeasure(fields, DirColumns(r)[k].0)
    {
      if k > 0 {
        assert ParseKey(DirColumns(r)[k].0) == Some((r.dir, r.metrics[k - 1].0));
      }
    }
  }

  lemma KeysConcat(fields: seq<Field>, a: seq<Column>, b: seq<Column>)
    requires forall k :: 0 <= k < |a| ==> TmcMeasure(fields, a[k].0)
    requires forall k :: 0 <= k < |b| ==> TmcMeasure(fields, b[k].0)
    ensures forall k :: 0 <= k < |a + b| ==> TmcMeasure(fields, (a + b)[k].0)
  {
    assert forall k :: |a| <= k < |a + b| ==> (a + b)[k] == b[k - |a|];
  }

  /** "SegmentSpeedData" holds no "BOUND": both patterns fail on it. */
  lemma NoDataKeyUnparsed()
    ensures ParseKey(NoDataCol) == None
  {
    assert NoChar(NoDataCol, 'B');
    NoHeadNotContains(NoDataCol, Bound);
    ParseKeyNone(NoDataCol);
  }
}
