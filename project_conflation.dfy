/**
 * The single-project tool (`projectTMCConflation`): one project line is conflated with the
 * four TMC directions, trimmed to its two main directions, and pivoted into a metric by
 * direction table; the caller gets a status message with either the table or the error.
 */
module ProjectConflation {
  import opened Wrappers
  import opened Strings
  import opened PyDict
  import opened Aggregation
  import opened ConflatedRows
  import opened RowSelection
  import opened KeyParsing
  import opened TmcRows
  import BatchConflation

  /** Speeds (`flds_speed_data`) by the unguarded inverse average, LOTTRs (`flds_rel_data`) by distance weighting. */
  const FieldTable: seq<Field> := [
    ("ff_speed", InvAvgUnguarded),
    ("havg_spd_worst4hrs", InvAvgUnguarded),
    ("lottr_ampk", DistanceWeightedAvg),
    ("lottr_midday", DistanceWeightedAvg),
    ("lottr_pmpk", DistanceWeightedAvg),
    ("lottr_wknd", DistanceWeightedAvg)]

  const MsgOk := "OK"
  const MsgFail := "Failed to complete."

  lemma FieldTableIsOk()
    ensures FieldTableOk(FieldTable)
  {
    var names := KeysOf(FieldTable);
    assert names == ["ff_speed", "havg_spd_worst4hrs", "lottr_ampk", "lottr_midday", "lottr_pmpk", "lottr_wknd"];
    assert Distinct(names);
    FieldNamesPlain();
  }

  /** No field name holds "_c" (so none contains "_calc_len") or a 'B'. */
  lemma FieldNamesPlain()
    ensures forall i :: 0 <= i < |FieldTable| ==> !Contains(FieldTable[i].0, CalcLenSuffix) && NoChar(FieldTable[i].0, 'B')
  {
    forall i | 0 <= i < |FieldTable|
      ensures !Contains(FieldTable[i].0, CalcLenSuffix) && NoChar(FieldTable[i].0, 'B')
    {
      assert NoPair(FieldTable[i].0, '_', 'c');
      NoPairNotContains(FieldTable[i].0, CalcLenSuffix);
    }
  }

  /**
   * `simplify_outputs`: a one-record list, either the no-data record or the longest
   * direction's columns followed by the second direction's, with no two-way test.
   */
  function SimplifyOutputs(cols: seq<Column>): (r: seq<seq<Column>>)
    requires Simplifiable(cols)
    ensures |r| == 1
    ensures r[0] == NoDataRecord() <== ChooseDirections(cols).NoOverlap?
  {
    match ChooseDirections(cols)
    case NoOverlap => [NoDataRecord()]
    case Overlap(maxCol, _, secCol, _) =>
      [SelectPrefix(cols, DirOf(maxCol)) + SelectPrefix(cols, DirOf(secCol))]
  }

  /**
   * On a conflated row: the no-data record when the first longest covered length is under
   * 10% of the project, else the block of that direction and the block of the first
   * longest among the others, whatever its length.
   */
  lemma SimplifyOnConflatedRow(projLen: real, rs: seq<DirResult>)
    requires WellFormedResults(rs) && |rs| >= 2
    ensures Simplifiable(RowColumns(projLen, rs))
    ensures var lens := CalcLens(rs);
      var p := FirstMax(lens);
      var q := SecondMax(lens, p);
      SimplifyOutputs(RowColumns(projLen, rs)) ==
        if Below(Ratio(lens[p], projLen), MinOverlapShare) then [NoDataRecord()]
        else [DirColumns(rs[p]) + DirColumns(rs[q])]
  {
    ChooseOnConflatedRow(projLen, rs);
    SelectedBlocks(projLen, rs);
  }

  // ---------------------------------------------------------------- make_df

  /** `df.pivot(index='metric', columns='direction', values=0)`: its row and column labels and its cells. */
  datatype Pivot = Pivot(metrics: set<string>, directions: set<string>, cells: map<(string, string), Cell>)

  /** Where a column lands in the pivot: (metric, direction). */
  function PivotKey(key: string): (string, string)
    requires ParseKey(key).Some?
  {
    (ParseKey(key).value.1, ParseKey(key).value.0)
  }

  predicate AllParse(record: seq<Column>)
  {
    forall k :: 0 <= k < |record| ==> ParseKey(record[k].0).Some?
  }

  /**
   * `make_df`: `DataFrame.from_dict(in_dict, orient='index')` of an empty dict has no column
   * `0`, so the pivot on `values=0` raises KeyError(0); otherwise every key is split and the
   * values pivoted.
   */
  function MakeDf(record: seq<Column>): Result<Pivot, PyError>
  {
    if record == [] then Err(KeyError("0")) else SplitAndPivot(record)
  }

  /**
   * The key splitting and the pivot of a non-empty dict: split every key into direction and
   * metric (`re.match(...).group(1)` fails on a key without "BOUND"), then pivot the values.
   */
  function SplitAndPivot(record: seq<Column>): Result<Pivot, PyError>
  {
    if record == [] then Ok(Pivot({}, {}, map[]))
    else
      var n := |record| - 1;
      match SplitAndPivot(record[..n])
      case Err(e) => Err(e)
      case Ok(pv) =>
        match ParseKey(record[n].0)
        case None => Err(AttributeError("group"))
        case Some(dm) => Ok(Pivot(pv.metrics + {dm.1}, pv.directions + {dm.0}, pv.cells[(dm.1, dm.0) := record[n].1]))
  }

  /**
   * `make_df` fails exactly on the empty dict, with KeyError(0), and where some key holds no
   * "BOUND", with the `.group` error.
   */
  lemma MakeDfFails(record: seq<Column>)
    ensures MakeDf(record).Err? <==> record == [] || exists k :: 0 <= k < |record| && !Contains(record[k].0, Bound)
    ensures record == [] ==> MakeDf(record) == Err(KeyError("0"))
    ensures record != [] && MakeDf(record).Err? ==> MakeDf(record).error == AttributeError("group")
  {
    SplitAndPivotFails(record);
  }

  lemma {:induction false} SplitAndPivotFails(record: seq<Column>)
    ensures SplitAndPivot(record).Err? <==> exists k :: 0 <= k < |record| && !Contains(record[k].0, Bound)
    ensures SplitAndPivot(record).Err? ==> SplitAndPivot(record).error == AttributeError("group")
  {
    if record != [] {
      var n := |record| - 1;
      SplitAndPivotFails(record[..n]);
      ParseKeyNone(record[n].0);
      if SplitAndPivot(record[..n]).Err? {
        var k :| 0 <= k < n && !Contains(record[..n][k].0, Bound);
        assert record[k] == record[..n][k];
      } else {
        assert forall k :: 0 <= k < n ==> record[..n][k] == record[k];
      }
    }
  }

  /** Every column of the record sits in the pivot at (its metric, its direction). */
  predicate PivotHolds(pv: Pivot, record: seq<Column>)
    requires AllParse(record)
  {
    forall k :: 0 <= k < |record| ==> PivotKey(record[k].0) in pv.cells && pv.cells[PivotKey(record[k].0)] == record[k].1
  }

  /**
   * On a non-empty dict whose keys all parse, `make_df` succeeds and each value lands at its
   * (metric, direction) cell; on the empty dict it fails.
   */
  lemma MakeDfCells(record: seq<Column>)
    requires AllParse(record) && Distinct(KeysOf(record))
    ensures MakeDf(record).Ok? <==> record != []
    ensures record != [] ==> PivotHolds(MakeDf(record).value, record)
  {
    SplitAndPivotCells(record);
  }

  lemma {:induction false} SplitAndPivotCells(record: seq<Column>)
    requires AllParse(record) && Distinct(KeysOf(record))
    ensures SplitAndPivot(record).Ok?
    ensures PivotHolds(SplitAndPivot(record).value, record)
  {
    if record != [] {
      var n := |record| - 1;
      var pre := record[..n];
      assert forall k :: 0 <= k < n ==> pre[k] == record[k];
      assert AllParse(pre);
      assert KeysOf(pre) == KeysOf(record)[..n];
      SplitAndPivotCells(pre);
      var pv := SplitAndPivot(pre).value;
      var key := PivotKey(record[n].0);
      assert SplitAndPivot(record).value.cells == pv.cells[key := record[n].1];
      forall k | 0 <= k < n
        ensures PivotKey(record[k].0) != key
      {
        assert KeysOf(record)[k] == record[k].0 && KeysOf(record)[n] == record[n].0;
        ParseKeyInjective(record[k].0, record[n].0);
      }
    }
  }

  /** The (metric, direction) labels of the record's keys. */
  function PivotKeys(record: seq<Column>): set<(string, string)>
    requires AllParse(record)
  {
    set k | 0 <= k < |record| :: PivotKey(record[k].0)
  }

  lemma PivotKeysSnoc(record: seq<Column>)
    requires AllParse(record) && record != []
    ensures AllParse(record[..|record| - 1])
    ensures PivotKeys(record) == PivotKeys(record[..|record| - 1]) + {PivotKey(record[|record| - 1].0)}
  {
    var n := |record| - 1;
    var pre := record[..n];
    assert forall k :: 0 <= k < n ==> pre[k] == record[k];
    forall x | x in PivotKeys(record)
      ensures x in PivotKeys(pre) + {PivotKey(record[n].0)}
    {
      var k :| 0 <= k < |record| && x == PivotKey(record[k].0);
      if k < n {
        assert x == PivotKey(pre[k].0);
      }
    }
    forall x | x in PivotKeys(pre)
      ensures x in PivotKeys(record)
    {
      var k :| 0 <= k < n && x == PivotKey(pre[k].0);
      assert x == PivotKey(record[k].0);
    }
  }

  /**
   * On a non-empty dict whose keys all parse, the pivot's cells are exactly at the record's
   * (metric, direction) labels; its row labels are their metrics and its column labels their
   * directions. On the empty dict `make_df` fails.
   */
  lemma MakeDfLabels(record: seq<Column>)
    requires AllParse(record)
    ensures MakeDf(record).Ok? <==> record != []
    ensures record != [] ==> MakeDf(record).value.cells.Keys == PivotKeys(record)
    ensures record != [] ==> forall m :: m in MakeDf(record).value.metrics <==> exists d :: (m, d) in PivotKeys(record)
    ensures record != [] ==> forall d :: d in MakeDf(record).value.directions <==> exists m :: (m, d) in PivotKeys(record)
  {
    SplitAndPivotLabels(record);
  }

  lemma {:induction false} SplitAndPivotLabels(record: seq<Column>)
    requires AllParse(record)
    ensures SplitAndPivot(record).Ok?
    ensures SplitAndPivot(record).value.cells.Keys == PivotKeys(record)
    ensures forall m :: m in SplitAndPivot(record).value.metrics <==> exists d :: (m, d) in PivotKeys(record)
    ensures forall d :: d in SplitAndPivot(record).value.directions <==> exists m :: (m, d) in PivotKeys(record)
  {
    if record != [] {
      var n := |record| - 1;
      PivotKeysSnoc(record);
      SplitAndPivotLabels(record[..n]);
      var key := PivotKey(record[n].0);
      var pv := SplitAndPivot(record[..n]).value;
      var r := SplitAndPivot(record).value;
      assert r == Pivot(pv.metrics + {key.0}, pv.directions + {key.1}, pv.cells[key := record[n].1]);
      forall m
        ensures m in r.metrics <==> exists d :: (m, d) in PivotKeys(record)
      {
        if m in r.metrics && m !in pv.metrics {
          assert (m, key.1) in PivotKeys(record);
        }
      }
      forall d
        ensures d in r.directions <==> exists m :: (m, d) in PivotKeys(record)
      {
        if d in r.directions && d !in pv.directions {
          assert (key.0, d) in PivotKeys(record);
        }
      }
    }
  }

  // ---------------------------------------------------------------- get_npmrds_data

  datatype Payload = Table(pivot: Pivot) | Traceback(error: PyError)

  /** The tuple `get_npmrds_data` returns: a message and the table or the error. */
  datatype Outcome = Outcome(msg: string, payload: Payload)

  lemma ProjectRow(projLen: real, piecesByDir: seq<seq<Piece>>)
    requires |piecesByDir| == |TmcDirections|
    ensures WellFormedResults(TmcResults(FieldTable, piecesByDir))
    ensures Simplifiable(RowColumns(projLen, TmcResults(FieldTable, piecesByDir)))
    ensures Valid(FromPairs(RowColumns(projLen, TmcResults(FieldTable, piecesByDir))))
    ensures Items(FromPairs(RowColumns(projLen, TmcResults(FieldTable, piecesByDir)))) == RowColumns(projLen, TmcResults(FieldTable, piecesByDir))
  {
    FieldTableIsOk();
    TmcRowShape(FieldTable, projLen, piecesByDir);
  }

  /** The record `simplify_outputs(...)[0]` for one project. */
  function ProjectRecord(projLen: real, piecesByDir: seq<seq<Piece>>): seq<Column>
    requires |piecesByDir| == |TmcDirections|
  {
    ProjectRow(projLen, piecesByDir);
    SimplifyOutputs(RowColumns(projLen, TmcResults(FieldTable, piecesByDir)))[0]
  }

  function Report(r: Result<Pivot, PyError>): Outcome
  {
    match r
    case Ok(pv) => Outcome(MsgOk, Table(pv))
    case Err(e) => Outcome(MsgFail, Traceback(e))
  }

  /** `get_npmrds_data` */
  method GetNpmrdsData(projLen: real, piecesByDir: seq<seq<Piece>>) returns (status: Outcome)
    requires |piecesByDir| == |TmcDirections|
    ensures status == Report(MakeDf(ProjectRecord(projLen, piecesByDir)))
  {
    var row := ConflateTmc2ProjLine(projLen, TmcDirections, piecesByDir, FieldTable);
    ProjectRow(projLen, piecesByDir);
    var projdata := Items(row);
    var outDict := SimplifyOutputs(projdata)[0];
    var outDf := MakeDf(outDict);
    match outDf {
      case Ok(pv) => status := Outcome(MsgOk, Table(pv));
      case Err(e) => status := Outcome(MsgFail, Traceback(e));
    }
  }

  // ---------------------------------------------------------------- what the table holds

  /** The pivot label of column `k` of a direction's block. */
  function BlockLabel(r: DirResult, k: nat): (string, string)
    requires k <= |r.metrics|
  {
    if k == 0 then (CalcLenSuffix, r.dir) else (r.metrics[k - 1].0, r.dir)
  }

  /** The pivot shows a direction's block in that direction's column. */
  predicate HoldsBlock(pv: Pivot, r: DirResult)
  {
    && (CalcLenSuffix, r.dir) in pv.cells
    && pv.cells[(CalcLenSuffix, r.dir)] == Num(r.calcLen)
    && forall k :: 0 <= k < |r.metrics| ==>
         (r.metrics[k].0, r.dir) in pv.cells && pv.cells[(r.metrics[k].0, r.dir)] == r.metrics[k].1
  }

  lemma BlockPivot(r: DirResult, i: nat)
    requires i < |TmcDirections| && r.dir == TmcDirections[i]
    requires forall k :: 0 <= k < |r.metrics| ==> NoChar(r.metrics[k].0, 'B')
    ensures AllParse(DirColumns(r))
    ensures forall k :: 0 <= k < |DirColumns(r)| ==> PivotKey(DirColumns(r)[k].0) == BlockLabel(r, k)
  {
    DirColumnsKeys(r, i);
    forall k | 0 <= k < |DirColumns(r)|
      ensures ParseKey(DirColumns(r)[k].0).Some? && PivotKey(DirColumns(r)[k].0) == BlockLabel(r, k)
    {
      if k > 0 {
        assert ParseKey(DirColumns(r)[(k - 1) + 1].0) == Some((r.dir, r.metrics[k - 1].0));
      }
    }
  }

  lemma SelfContains(s: string)
    ensures Contains(s, s)
  {
    assert OccursAt(s, s, 0);
  }

  lemma BlockLabelsDistinct(r: DirResult, fields: seq<Field>)
    requires WellFormedFields(fields) && KeysOf(r.metrics) == KeysOf(fields)
    ensures forall k1, k2 :: 0 <= k1 < k2 <= |r.metrics| ==> BlockLabel(r, k1) != BlockLabel(r, k2)
  {
    forall k1, k2 | 0 <= k1 < k2 <= |r.metrics|
      ensures BlockLabel(r, k1) != BlockLabel(r, k2)
    {
      assert KeysOf(r.metrics)[k2 - 1] == r.metrics[k2 - 1].0;
      if k1 == 0 {
        SelfContains(CalcLenSuffix);
        assert !Contains(fields[k2 - 1].0, CalcLenSuffix);
      } else {
        assert KeysOf(r.metrics)[k1 - 1] == r.metrics[k1 - 1].0;
      }
    }
  }

  lemma ConcatParse(a: seq<Column>, b: seq<Column>)
    requires AllParse(a) && AllParse(b)
    ensures AllParse(a + b)
    ensures forall k :: 0 <= k < |a| ==> PivotKey((a + b)[k].0) == PivotKey(a[k].0) && (a + b)[k].1 == a[k].1
    ensures forall k :: 0 <= k < |b| ==> PivotKey((a + b)[|a| + k].0) == PivotKey(b[k].0) && (a + b)[|a| + k].1 == b[k].1
  {
    assert forall k :: 0 <= k < |a + b| ==> (a + b)[k] == if k < |a| then a[k] else b[k - |a|];
  }

  /** Requirements on two blocks of one field table, in two of the TMC directions. */
  predicate TwoBlocks(rp: DirResult, rq: DirResult, i: nat, j: nat, fields: seq<Field>)
  {
    && FieldTableOk(fields)
    && i < |TmcDirections| && j < |TmcDirections|
    && rp.dir == TmcDirections[i] && rq.dir == TmcDirections[j]
    && KeysOf(rp.metrics) == KeysOf(fields) && KeysOf(rq.metrics) == KeysOf(fields)
  }

  lemma MetricNamesNoB(r: DirResult, fields: seq<Field>)
    requires FieldTableOk(fields) && KeysOf(r.metrics) == KeysOf(fields)
    ensures forall k :: 0 <= k < |r.metrics| ==> NoChar(r.metrics[k].0, 'B')
  {
    forall k | 0 <= k < |r.metrics| ensures NoChar(r.metrics[k].0, 'B') {
      assert KeysOf(r.metrics)[k] == r.metrics[k].0;
    }
  }

  /** Each column of the two blocks parses, to its block's label. */
  lemma TwoBlocksParse(rp: DirResult, rq: DirResult, i: nat, j: nat, fields: seq<Field>)
    requires TwoBlocks(rp, rq, i, j, fields)
    ensures AllParse(DirColumns(rp) + DirColumns(rq))
    ensures forall k :: 0 <= k < |DirColumns(rp)| ==>
      PivotKey((DirColumns(rp) + DirColumns(rq))[k].0) == BlockLabel(rp, k) && (DirColumns(rp) + DirColumns(rq))[k].1 == DirColumns(rp)[k].1
    ensures forall k :: 0 <= k < |DirColumns(rq)| ==>
      PivotKey((DirColumns(rp) + DirColumns(rq))[|DirColumns(rp)| + k].0) == BlockLabel(rq, k) && (DirColumns(rp) + DirColumns(rq))[|DirColumns(rp)| + k].1 == DirColumns(rq)[k].1
  {
    MetricNamesNoB(rp, fields);
    MetricNamesNoB(rq, fields);
    BlockPivot(rp, i);
    BlockPivot(rq, j);
    ConcatParse(DirColumns(rp), DirColumns(rq));
  }

  /** The pivot labels of a direction's block, column by column. */
  function BlockLabels(r: DirResult): (ls: seq<(string, string)>)
    ensures |ls| == |r.metrics| + 1 && forall k :: 0 <= k <= |r.metrics| ==> ls[k] == BlockLabel(r, k)
  {
    seq(|r.metrics| + 1, k requires 0 <= k <= |r.metrics| => BlockLabel(r, k))
  }

  /** Columns whose labels are pairwise different have pairwise different keys. */
  lemma DistinctByLabels(rec: seq<Column>, labels: seq<(string, string)>)
    requires AllParse(rec) && |labels| == |rec|
    requires forall k :: 0 <= k < |rec| ==> PivotKey(rec[k].0) == labels[k]
    requires Distinct(labels)
    ensures Distinct(KeysOf(rec))
  {
  }

  lemma DistinctConcat<T>(x: seq<T>, y: seq<T>)
    requires Distinct(x) && Distinct(y)
    requires forall i, j :: 0 <= i < |x| && 0 <= j < |y| ==> x[i] != y[j]
    ensures Distinct(x + y)
  {
  }

  /** Column by column, the two blocks carry the labels of the first block, then of the second. */
  lemma TwoBlocksLabelled(rp: DirResult, rq: DirResult, i: nat, j: nat, fields: seq<Field>)
    requires TwoBlocks(rp, rq, i, j, fields)
    ensures AllParse(DirColumns(rp) + DirColumns(rq))
    ensures |DirColumns(rp) + DirColumns(rq)| == |BlockLabels(rp) + BlockLabels(rq)|
    ensures forall k :: 0 <= k < |DirColumns(rp) + DirColumns(rq)| ==>
      PivotKey((DirColumns(rp) + DirColumns(rq))[k].0) == (BlockLabels(rp) + BlockLabels(rq))[k]
  {
    var a, b := DirColumns(rp), DirColumns(rq);
    TwoBlocksParse(rp, rq, i, j, fields);
    var rec, labels := a + b, BlockLabels(rp) + BlockLabels(rq);
    forall k | 0 <= k < |rec|
      ensures PivotKey(rec[k].0) == labels[k]
    {
      if k >= |a| {
        assert rec[k] == rec[|a| + (k - |a|)];
      }
    }
  }

  /** The two blocks' keys are distinct, as the keys of a dict are. */
  lemma TwoBlocksDistinct(rp: DirResult, rq: DirResult, i: nat, j: nat, fields: seq<Field>)
    requires TwoBlocks(rp, rq, i, j, fields) && i != j
    ensures AllParse(DirColumns(rp) + DirColumns(rq))
    ensures Distinct(KeysOf(DirColumns(rp) + DirColumns(rq)))
  {
    TwoBlocksLabelled(rp, rq, i, j, fields);
    BlockLabelsDistinct(rp, fields);
    BlockLabelsDistinct(rq, fields);
    assert rp.dir != rq.dir;
    DistinctConcat(BlockLabels(rp), BlockLabels(rq));
    DistinctByLabels(DirColumns(rp) + DirColumns(rq), BlockLabels(rp) + BlockLabels(rq));
  }

  /** A block lying in a record whose every column sits in the pivot lies in the pivot too. */
  lemma BlockHeld(pv: Pivot, r: DirResult, i: nat, rec: seq<Column>, off: nat)
    requires i < |TmcDirections| && r.dir == TmcDirections[i]
    requires forall k :: 0 <= k < |r.metrics| ==> NoChar(r.metrics[k].0, 'B')
    requires AllParse(rec) && PivotHolds(pv, rec)
    requires off + |DirColumns(r)| <= |rec|
    requires forall k :: 0 <= k < |DirColumns(r)| ==> rec[off + k] == DirColumns(r)[k]
    ensures HoldsBlock(pv, r)
  {
    var a := DirColumns(r);
    BlockPivot(r, i);
    assert rec[off + 0] == a[0];
    forall k | 0 <= k < |r.metrics|
      ensures (r.metrics[k].0, r.dir) in pv.cells && pv.cells[(r.metrics[k].0, r.dir)] == r.metrics[k].1
    {
      assert rec[off + (k + 1)] == a[k + 1];
      assert PivotKey(a[k + 1].0) == BlockLabel(r, k + 1);
    }
  }

  /** Both blocks of a record whose every column sits in the pivot lie in the pivot. */
  lemma TwoBlocksHeld(pv: Pivot, rp: DirResult, rq: DirResult, i: nat, j: nat, fields: seq<Field>)
    requires TwoBlocks(rp, rq, i, j, fields)
    requires AllParse(DirColumns(rp) + DirColumns(rq)) && PivotHolds(pv, DirColumns(rp) + DirColumns(rq))
    ensures HoldsBlock(pv, rp) && HoldsBlock(pv, rq)
  {
    var a, b := DirColumns(rp), DirColumns(rq);
    var rec := a + b;
    MetricNamesNoB(rp, fields);
    MetricNamesNoB(rq, fields);
    assert forall k :: 0 <= k < |a| ==> rec[0 + k] == a[k];
    assert forall k :: 0 <= k < |b| ==> rec[|a| + k] == b[k];
    BlockHeld(pv, rp, i, rec, 0);
    BlockHeld(pv, rq, j, rec, |a|);
  }

  /** Two blocks of a field table, in two different directions, pivot without error into their cells. */
  lemma TwoBlocksPivot(rp: DirResult, rq: DirResult, i: nat, j: nat, fields: seq<Field>)
    requires TwoBlocks(rp, rq, i, j, fields) && i != j
    ensures MakeDf(DirColumns(rp) + DirColumns(rq)).Ok?
    ensures var pv := MakeDf(DirColumns(rp) + DirColumns(rq)).value;
      HoldsBlock(pv, rp) && HoldsBlock(pv, rq)
  {
    TwoBlocksDistinct(rp, rq, i, j, fields);
    MakeDfCells(DirColumns(rp) + DirColumns(rq));
    TwoBlocksHeld(MakeDf(DirColumns(rp) + DirColumns(rq)).value, rp, rq, i, j, fields);
  }

  /** The labels of a record are the labels its columns carry. */
  lemma PivotKeysByLabels(rec: seq<Column>, labels: seq<(string, string)>)
    requires AllParse(rec) && |labels| == |rec|
    requires forall k :: 0 <= k < |rec| ==> PivotKey(rec[k].0) == labels[k]
    ensures forall x :: x in PivotKeys(rec) <==> x in labels
  {
    forall x | x in labels
      ensures x in PivotKeys(rec)
    {
      var k :| 0 <= k < |labels| && labels[k] == x;
      assert PivotKey(rec[k].0) == x;
    }
  }

  /** The labels of the two blocks: both directions, and the covered length and every field. */
  lemma TwoBlocksLabelSet(rp: DirResult, rq: DirResult, i: nat, j: nat, fields: seq<Field>)
    requires TwoBlocks(rp, rq, i, j, fields)
    ensures AllParse(DirColumns(rp) + DirColumns(rq))
    ensures (CalcLenSuffix, rp.dir) in PivotKeys(DirColumns(rp) + DirColumns(rq))
    ensures (CalcLenSuffix, rq.dir) in PivotKeys(DirColumns(rp) + DirColumns(rq))
    ensures forall m :: m in KeysOf(fields) ==> (m, rp.dir) in PivotKeys(DirColumns(rp) + DirColumns(rq))
    ensures forall x :: x in PivotKeys(DirColumns(rp) + DirColumns(rq)) ==>
      (x.1 == rp.dir || x.1 == rq.dir) && (x.0 == CalcLenSuffix || x.0 in KeysOf(fields))
  {
    var lp, lq := BlockLabels(rp), BlockLabels(rq);
    TwoBlocksLabelled(rp, rq, i, j, fields);
    PivotKeysByLabels(DirColumns(rp) + DirColumns(rq), lp + lq);
    assert lp[0] in lp + lq && lq[0] in lp + lq;
    forall x | x in lp + lq
      ensures (x.1 == rp.dir || x.1 == rq.dir) && (x.0 == CalcLenSuffix || x.0 in KeysOf(fields))
    {
      if x in lp {
        var k :| 0 <= k < |lp| && lp[k] == x;
        if k > 0 { assert KeysOf(rp.metrics)[k - 1] == rp.metrics[k - 1].0; }
      } else {
        var k :| 0 <= k < |lq| && lq[k] == x;
        if k > 0 { assert KeysOf(rq.metrics)[k - 1] == rq.metrics[k - 1].0; }
      }
    }
    forall m | m in KeysOf(fields)
      ensures m in KeysOf(fields) && (m, rp.dir) in lp + lq
    {
      var k :| 0 <= k < |fields| && KeysOf(fields)[k] == m;
      assert KeysOf(rp.metrics)[k] == rp.metrics[k].0;
      assert lp[k + 1] == (m, rp.dir);
    }
  }

  /** A pivot whose labels come from a set of (metric, direction) pairs of that shape has those rows and columns. */
  lemma LabelsFromKeys(pv: Pivot, keys: set<(string, string)>, dp: string, dq: string, fields: seq<Field>)
    requires forall m :: m in pv.metrics <==> exists d :: (m, d) in keys
    requires forall d :: d in pv.directions <==> exists m :: (m, d) in keys
    requires (CalcLenSuffix, dp) in keys && (CalcLenSuffix, dq) in keys
    requires forall m :: m in KeysOf(fields) ==> (m, dp) in keys
    requires forall x :: x in keys ==> (x.1 == dp || x.1 == dq) && (x.0 == CalcLenSuffix || x.0 in KeysOf(fields))
    ensures pv.directions == {dp, dq}
    ensures forall m :: m in pv.metrics <==> m == CalcLenSuffix || m in KeysOf(fields)
  {
    forall d
      ensures d in pv.directions <==> d == dp || d == dq
    {
      if d == dp || d == dq {
        assert (CalcLenSuffix, d) in keys;
      }
    }
    forall m
      ensures m in pv.metrics <==> m == CalcLenSuffix || m in KeysOf(fields)
    {
      if m == CalcLenSuffix || m in KeysOf(fields) {
        assert (m, dp) in keys;
      }
    }
  }

  /** The two blocks give the table exactly two direction columns and one row per measure. */
  lemma TwoBlocksLabels(rp: DirResult, rq: DirResult, i: nat, j: nat, fields: seq<Field>)
    requires TwoBlocks(rp, rq, i, j, fields)
    ensures MakeDf(DirColumns(rp) + DirColumns(rq)).Ok?
    ensures var pv := MakeDf(DirColumns(rp) + DirColumns(rq)).value;
      && pv.directions == {rp.dir, rq.dir}
      && forall m :: m in pv.metrics <==> m == CalcLenSuffix || m in KeysOf(fields)
  {
    var rec := DirColumns(rp) + DirColumns(rq);
    TwoBlocksLabelSet(rp, rq, i, j, fields);
    MakeDfLabels(rec);
    LabelsFromKeys(MakeDf(rec).value, PivotKeys(rec), rp.dir, rq.dir, fields);
  }

  // ---------------------------------------------------------------- project outcomes

  /** `make_df` on the no-data record fails on its key, which holds no "BOUND". */
  lemma NoDataReport()
    ensures Report(MakeDf(NoDataRecord())) == Outcome(MsgFail, Traceback(AttributeError("group")))
  {
    NoDataKeyUnparsed();
    assert SplitAndPivot([]) == Ok(Pivot({}, {}, map[]));
    assert NoDataRecord()[..0] == [];
  }

  /** A project whose every direction covers under 10% of it reduces to the no-data record. */
  lemma NoDataProjectRecord(projLen: real, piecesByDir: seq<seq<Piece>>)
    requires |piecesByDir| == |TmcDirections| && projLen > 0.0
    requires forall i :: 0 <= i < |TmcDirections| ==> TmcResults(FieldTable, piecesByDir)[i].calcLen < MinOverlapShare * projLen
    ensures ProjectRecord(projLen, piecesByDir) == NoDataRecord()
  {
    var rs := TmcResults(FieldTable, piecesByDir);
    ProjectRow(projLen, piecesByDir);
    SimplifyOnConflatedRow(projLen, rs);
    CoverageTest(projLen, rs);
  }

  /** A project whose every direction covers under 10% of it ends in the failure message, via `make_df`'s `.group` error. */
  lemma NoDataProjectFails(projLen: real, piecesByDir: seq<seq<Piece>>)
    requires |piecesByDir| == |TmcDirections| && projLen > 0.0
    requires forall i :: 0 <= i < |TmcDirections| ==> TmcResults(FieldTable, piecesByDir)[i].calcLen < MinOverlapShare * projLen
    ensures ProjectRecord(projLen, piecesByDir) == NoDataRecord()
    ensures Report(MakeDf(ProjectRecord(projLen, piecesByDir))) == Outcome(MsgFail, Traceback(AttributeError("group")))
  {
    NoDataProjectRecord(projLen, piecesByDir);
    NoDataReport();
  }

  /** With a direction covering 10% of the project, the record is the longest direction's block then the second's. */
  lemma RecordWithData(projLen: real, rs: seq<DirResult>, i: nat)
    requires WellFormedResults(rs) && |rs| >= 2 && projLen > 0.0
    requires i < |rs| && rs[i].calcLen >= MinOverlapShare * projLen
    ensures Simplifiable(RowColumns(projLen, rs))
    ensures var p := FirstMax(CalcLens(rs));
      SimplifyOutputs(RowColumns(projLen, rs))[0] == DirColumns(rs[p]) + DirColumns(rs[SecondMax(CalcLens(rs), p)])
  {
    Covered(projLen, rs, i);
    SimplifyOnConflatedRow(projLen, rs);
  }

  /** What `make_df` and the status report make of two blocks of the field table. */
  lemma TwoBlocksOutcome(rp: DirResult, rq: DirResult, i: nat, j: nat)
    requires TwoBlocks(rp, rq, i, j, FieldTable) && i != j
    ensures var s := Report(MakeDf(DirColumns(rp) + DirColumns(rq)));
      && s.msg == MsgOk && s.payload.Table?
      && s.payload.pivot.directions == {rp.dir, rq.dir}
      && (forall m :: m in s.payload.pivot.metrics <==> m == CalcLenSuffix || m in KeysOf(FieldTable))
      && HoldsBlock(s.payload.pivot, rp) && HoldsBlock(s.payload.pivot, rq)
  {
    TwoBlocksPivot(rp, rq, i, j, FieldTable);
    TwoBlocksLabels(rp, rq, i, j, FieldTable);
  }

  /**
   * A project some direction of which covers at least 10% of it ends in "OK" with a table
   * whose columns are the longest direction and the second longest, whose rows are the
   * covered length and every field, and whose cells hold both directions' values.
   */
  lemma DataProjectOk(projLen: real, piecesByDir: seq<seq<Piece>>, i: nat)
    requires |piecesByDir| == |TmcDirections| && projLen > 0.0
    requires i < |TmcDirections| && TmcResults(FieldTable, piecesByDir)[i].calcLen >= MinOverlapShare * projLen
    ensures var rs := TmcResults(FieldTable, piecesByDir);
      var p := FirstMax(CalcLens(rs));
      var q := SecondMax(CalcLens(rs), p);
      var s := Report(MakeDf(ProjectRecord(projLen, piecesByDir)));
      && s.msg == MsgOk && s.payload.Table?
      && s.payload.pivot.directions == {TmcDirections[p], TmcDirections[q]}
      && (forall m :: m in s.payload.pivot.metrics <==> m == CalcLenSuffix || m in KeysOf(FieldTable))
      && HoldsBlock(s.payload.pivot, rs[p]) && HoldsBlock(s.payload.pivot, rs[q])
  {
    var rs := TmcResults(FieldTable, piecesByDir);
    var p := FirstMax(CalcLens(rs));
    var q := SecondMax(CalcLens(rs), p);
    ProjectRow(projLen, piecesByDir);
    FieldTableIsOk();
    RecordWithData(projLen, rs, i);
    TmcBlock(FieldTable, piecesByDir, p);
    TmcBlock(FieldTable, piecesByDir, q);
    TwoBlocksOutcome(rs[p], rs[q], p, q);
  }

  /** On a project of positive length, `get_npmrds_data` reports failure exactly when no direction covers 10% of it. */
  lemma ProjectStatus(projLen: real, piecesByDir: seq<seq<Piece>>)
    requires |piecesByDir| == |TmcDirections| && projLen > 0.0
    ensures Report(MakeDf(ProjectRecord(projLen, piecesByDir))).msg == MsgFail <==>
      forall i :: 0 <= i < |TmcDirections| ==> TmcResults(FieldTable, piecesByDir)[i].calcLen < MinOverlapShare * projLen
  {
    if i :| 0 <= i < |TmcDirections| && TmcResults(FieldTable, piecesByDir)[i].calcLen >= MinOverlapShare * projLen {
      DataProjectOk(projLen, piecesByDir, i);
    } else {
      NoDataProjectFails(projLen, piecesByDir);
    }
  }

  // ---------------------------------------------------------------- the two tools compared

  /**
   * On the same conflated row the two `simplify_outputs` agree on "no data"; with data,
   * the batch tool's columns are a prefix of this tool's record, the whole of it exactly
   * when the second direction covers more than 75% of the first.
   */
  lemma VariantsCompared(projLen: real, rs: seq<DirResult>)
    requires WellFormedResults(rs) && |rs| >= 2 && projLen > 0.0
    ensures Simplifiable(RowColumns(projLen, rs))
    ensures var cols := RowColumns(projLen, rs);
      var batch := BatchConflation.SimplifyOutputs(cols);
      var record := SimplifyOutputs(cols)[0];
      && (batch.Records? <==> record == NoDataRecord())
      && (batch.Records? ==> batch.records == [record])
      && (batch.Frame? ==> batch.cols <= record)
      && (batch.Frame? ==> (batch.cols == record <==> CalcLens(rs)[SecondMax(CalcLens(rs), FirstMax(CalcLens(rs)))] > TwoWayShare * CalcLens(rs)[FirstMax(CalcLens(rs))]))
  {
    BatchConflation.NoDataThreshold(projLen, rs);
    SimplifyOnConflatedRow(projLen, rs);
    if i :| 0 <= i < |rs| && rs[i].calcLen >= MinOverlapShare * projLen {
      VariantsWithData(projLen, rs, i);
    } else {
      CoverageTest(projLen, rs);
    }
  }

  lemma VariantsWithData(projLen: real, rs: seq<DirResult>, i: nat)
    requires WellFormedResults(rs) && |rs| >= 2 && projLen > 0.0
    requires i < |rs| && rs[i].calcLen >= MinOverlapShare * projLen
    ensures Simplifiable(RowColumns(projLen, rs))
    ensures var cols := RowColumns(projLen, rs);
      var batch := BatchConflation.SimplifyOutputs(cols);
      var record := SimplifyOutputs(cols)[0];
      && batch.Frame? && record != NoDataRecord() && batch.cols <= record
      && (batch.cols == record <==> CalcLens(rs)[SecondMax(CalcLens(rs), FirstMax(CalcLens(rs)))] > TwoWayShare * CalcLens(rs)[FirstMax(CalcLens(rs))])
  {
    var lens := CalcLens(rs);
    var p := FirstMax(lens);
    var q := SecondMax(lens, p);
    RecordWithData(projLen, rs, i);
    BatchConflation.TwoWayThreshold(projLen, rs, i);
    var rec := DirColumns(rs[p]) + DirColumns(rs[q]);
    assert rec[0].0 == rs[p].dir + CalcLenSuffix;
    assert rs[p].dir + CalcLenSuffix != NoDataCol by {
      assert (rs[p].dir + CalcLenSuffix)[|rs[p].dir|..] == CalcLenSuffix;
    }
    assert |DirColumns(rs[q])| > 0;
  }
}
