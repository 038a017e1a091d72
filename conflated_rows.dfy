/**
 * The one-row table that `conflate_tmc2projline` builds for a project line, shared by the
 * batch script and the single-project script: the project length, then for each TMC
 * direction in turn the length of the line covered by retained pieces and one aggregate
 * per field, keyed by the direction name glued to the field name.
 */
module ConflatedRows {
  import opened Wrappers
  import opened Strings
  import opened PyDict
  import opened Aggregation

  const ProjLengthCol := "proj_length_ft"
  const CalcLenSuffix := "_calc_len"

  /** The TMC directions both scripts conflate, in order. */
  const TmcDirections: seq<string> := ["NORTHBOUND", "SOUTHBOUND", "EASTBOUND", "WESTBOUND"]

  /** A DataFrame column of the one-row table: its name and its single value. */
  type Column = (string, Cell)

  /**
   * How a field is aggregated over the pieces of one direction: the inverse (travel-time)
   * average, with the batch script's zero guard or without it as in the single-project
   * script, the distance-weighted average, or a method name neither branch recognises.
   */
  datatype AggMethod = InvAvgGuarded | InvAvgUnguarded | DistanceWeightedAvg | Unrecognised

  /** A speed-data field and its aggregation; field k is metric k of every piece. */
  type Field = (string, AggMethod)

  /** One direction's results: its name, its covered length, and the aggregates by field name. */
  datatype DirResult = DirResult(dir: string, calcLen: real, metrics: seq<Column>)

  /** The aggregate written for one field, or nothing for an unrecognised method. */
  function MetricCell(ps: seq<Piece>, k: nat, m: AggMethod): Option<Cell>
    requires AllKept(ps)
  {
    match m
    case InvAvgGuarded => Some(Num(WtdSpeedGuarded(ps, k)))
    case InvAvgUnguarded => Some(WtdSpeedUnguarded(ps, k))
    case DistanceWeightedAvg => Some(DistWtdAvg(ps, k))
    case Unrecognised => None
  }

  /** The aggregates of the fields, in field order, skipping unrecognised methods. */
  function MetricsOf(fields: seq<Field>, ps: seq<Piece>): (r: seq<Column>)
    requires AllKept(ps)
    ensures |r| <= |fields|
    decreases |fields|
  {
    if fields == [] then []
    else
      var n := |fields| - 1;
      var pre := MetricsOf(fields[..n], ps);
      match MetricCell(ps, n, fields[n].1)
      case Some(c) =>
        pre + [(fields[n].0, c)]
      case None => pre
  }

  /** The names of the fields with a recognised method, in field order. */
  function RecognisedNames(fields: seq<Field>): seq<string>
  {
    if fields == [] then []
    else
      var n := |fields| - 1;
      RecognisedNames(fields[..n]) + (if fields[n].1 == Unrecognised then [] else [fields[n].0])
  }

  /** The columns a direction gets depend on the field table alone, never on the data. */
  lemma {:induction false} MetricsOfNames(fields: seq<Field>, ps: seq<Piece>)
    requires AllKept(ps)
    ensures KeysOf(MetricsOf(fields, ps)) == RecognisedNames(fields)
    decreases |fields|
  {
    if fields != [] {
      var n := |fields| - 1;
      MetricsOfNames(fields[..n], ps);
      var pre := MetricsOf(fields[..n], ps);
      match MetricCell(ps, n, fields[n].1)
      case Some(c) =>
        assert KeysOf(pre + [(fields[n].0, c)]) == KeysOf(pre) + [fields[n].0];
      case None =>
    }
  }

  /** Every recognised name is a field name. */
  lemma {:induction false} RecognisedNamesIn(fields: seq<Field>)
    ensures forall i :: 0 <= i < |RecognisedNames(fields)| ==> RecognisedNames(fields)[i] in KeysOf(fields)
    decreases |fields|
  {
    if fields != [] {
      var n := |fields| - 1;
      RecognisedNamesIn(fields[..n]);
      assert KeysOf(fields) == KeysOf(fields[..n]) + [fields[n].0];
    }
  }

  /** Distinct field names stay distinct. */
  lemma {:induction false} RecognisedNamesDistinct(fields: seq<Field>)
    requires Distinct(KeysOf(fields))
    ensures Distinct(RecognisedNames(fields))
    decreases |fields|
  {
    if fields != [] {
      var n := |fields| - 1;
      assert KeysOf(fields[..n]) == KeysOf(fields)[..n];
      RecognisedNamesDistinct(fields[..n]);
      RecognisedNamesIn(fields[..n]);
      assert KeysOf(fields) == KeysOf(fields[..n]) + [fields[n].0];
    }
  }

  /** With every method recognised, all fields appear. */
  lemma {:induction false} RecognisedNamesAll(fields: seq<Field>)
    requires forall i :: 0 <= i < |fields| ==> fields[i].1 != Unrecognised
    ensures RecognisedNames(fields) == KeysOf(fields)
    decreases |fields|
  {
    if fields != [] {
      var n := |fields| - 1;
      RecognisedNamesAll(fields[..n]);
      assert KeysOf(fields) == KeysOf(fields[..n]) + [fields[n].0];
    }
  }

  /** Every recognised name is a field name; distinct field names stay distinct; with every method recognised, all fields appear. */
  lemma RecognisedNamesOf(fields: seq<Field>)
    ensures forall i :: 0 <= i < |RecognisedNames(fields)| ==> RecognisedNames(fields)[i] in KeysOf(fields)
    ensures Distinct(KeysOf(fields)) ==> Distinct(RecognisedNames(fields))
    ensures (forall i :: 0 <= i < |fields| ==> fields[i].1 != Unrecognised) ==> RecognisedNames(fields) == KeysOf(fields)
  {
    RecognisedNamesIn(fields);
    if Distinct(KeysOf(fields)) {
      RecognisedNamesDistinct(fields);
    }
    if forall i :: 0 <= i < |fields| ==> fields[i].1 != Unrecognised {
      RecognisedNamesAll(fields);
    }
  }

  /** The filter, the covered length and the aggregates of one direction. */
  function DirResultOf(dir: string, fields: seq<Field>, pieces: seq<Piece>): DirResult
  {
    var ps := Retained(pieces);
    DirResult(dir, SumLen(ps), MetricsOf(fields, ps))
  }

  /** The per-direction results, direction by direction. */
  function ConflateSpec(dirs: seq<string>, piecesByDir: seq<seq<Piece>>, fields: seq<Field>): (rs: seq<DirResult>)
    requires |piecesByDir| == |dirs|
    ensures |rs| == |dirs|
    ensures forall i :: 0 <= i < |dirs| ==> rs[i] == DirResultOf(dirs[i], fields, piecesByDir[i])
    ensures forall i :: 0 <= i < |dirs| ==>
      && rs[i].dir == dirs[i]
      && rs[i].calcLen == SumLen(Retained(piecesByDir[i]))
      && KeysOf(rs[i].metrics) == RecognisedNames(fields)
  {
    ConflateSpecNames(piecesByDir, fields);
    seq(|dirs|, i requires 0 <= i < |dirs| => DirResultOf(dirs[i], fields, piecesByDir[i]))
  }

  /** Every direction's aggregates are named by the fields with a recognised method. */
  lemma ConflateSpecNames(piecesByDir: seq<seq<Piece>>, fields: seq<Field>)
    ensures forall i :: 0 <= i < |piecesByDir| ==>
      KeysOf(MetricsOf(fields, Retained(piecesByDir[i]))) == RecognisedNames(fields)
  {
    forall i | 0 <= i < |piecesByDir|
      ensures KeysOf(MetricsOf(fields, Retained(piecesByDir[i]))) == RecognisedNames(fields)
    {
      MetricsOfNames(fields, Retained(piecesByDir[i]));
    }
  }

  /** The aggregates renamed `direction + field`: distinct field names stay distinct keys. */
  function Prefixed(dir: string, ms: seq<Column>): (r: seq<Column>)
    ensures |r| == |ms|
    ensures forall i :: 0 <= i < |ms| ==> r[i] == (dir + ms[i].0, ms[i].1)
    ensures Distinct(KeysOf(ms)) ==> Distinct(KeysOf(r))
  {
    var r := seq(|ms|, i requires 0 <= i < |ms| => (dir + ms[i].0, ms[i].1));
    assert forall i :: 0 <= i < |ms| ==> r[i].0[|dir|..] == ms[i].0;
    r
  }

  /** The columns one direction adds: `<dir>_calc_len`, then `<dir><field>` per aggregate. */
  function DirColumns(r: DirResult): seq<Column>
  {
    [(r.dir + CalcLenSuffix, Num(r.calcLen))] + Prefixed(r.dir, r.metrics)
  }

  function AllDirColumns(rs: seq<DirResult>): seq<Column>
  {
    if rs == [] then [] else AllDirColumns(rs[..|rs| - 1]) + DirColumns(rs[|rs| - 1])
  }

  /** The whole row, in the order its keys are first assigned. */
  function RowColumns(projLen: real, rs: seq<DirResult>): seq<Column>
  {
    [(ProjLengthCol, Num(projLen))] + AllDirColumns(rs)
  }

  lemma AllDirColumnsSnoc(rs: seq<DirResult>, r: DirResult)
    ensures AllDirColumns(rs + [r]) == AllDirColumns(rs) + DirColumns(r)
  {
    assert (rs + [r])[..|rs|] == rs;
  }

  lemma PrefixedSnoc(dir: string, ms: seq<Column>, c: Column)
    ensures Prefixed(dir, ms + [c]) == Prefixed(dir, ms) + [(dir + c.0, c.1)]
  {
  }

  lemma MetricsOfSnoc(fields: seq<Field>, ps: seq<Piece>, j: nat)
    requires AllKept(ps) && j < |fields|
    ensures MetricsOf(fields[..j + 1], ps) ==
      MetricsOf(fields[..j], ps) + (match MetricCell(ps, j, fields[j].1) case Some(c) => [(fields[j].0, c)] case None => [])
  {
    assert fields[..j + 1][..j] == fields[..j];
  }

  /**
   * The body of the direction loop of `conflate_tmc2projline`: filter the pieces, record the
   * covered length, then one aggregate per field in field order.
   */
  method AddDirection(row: Dict<string, Cell>, dir: string, pieces: seq<Piece>, fields: seq<Field>)
    returns (outRow: Dict<string, Cell>)
    ensures outRow == PutAll(row, DirColumns(DirResultOf(dir, fields, pieces)))
  {
    var ps := Retained(pieces);
    var dirLen := SumLen(ps);
    ghost var head: seq<Column> := [(dir + CalcLenSuffix, Num(dirLen))];
    PutAllSnoc(row, [], dir + CalcLenSuffix, Num(dirLen));
    assert [] + head == head;
    outRow := Put(row, dir + CalcLenSuffix, Num(dirLen));
    ghost var written := head;
    for j := 0 to |fields|
      invariant outRow == PutAll(row, written)
      invariant written == head + Prefixed(dir, MetricsOf(fields[..j], ps))
    {
      var cell := AggregateField(ps, j, fields[j].1);
      WrittenSnoc(head, dir, fields, ps, j);
      if cell.Some? {
        var c := (dir + fields[j].0, cell.value);
        PutAllSnoc(row, written, c.0, c.1);
        outRow := Put(outRow, c.0, c.1);
        written := written + [c];
      }
    }
    assert fields[..|fields|] == fields;
  }

  /** One more field appends its prefixed aggregate, if any, to the columns written so far. */
  lemma WrittenSnoc(head: seq<Column>, dir: string, fields: seq<Field>, ps: seq<Piece>, j: nat)
    requires AllKept(ps) && j < |fields|
    ensures var cell := MetricCell(ps, j, fields[j].1);
      head + Prefixed(dir, MetricsOf(fields[..j + 1], ps)) ==
        head + Prefixed(dir, MetricsOf(fields[..j], ps)) + (if cell.Some? then [(dir + fields[j].0, cell.value)] else [])
  {
    MetricsOfSnoc(fields, ps, j);
    var cell := MetricCell(ps, j, fields[j].1);
    if cell.Some? {
      PrefixedSnoc(dir, MetricsOf(fields[..j], ps), (fields[j].0, cell.value));
    } else {
      assert MetricsOf(fields[..j + 1], ps) == MetricsOf(fields[..j], ps) + [];
    }
  }

  /** The method dispatch for one field: inverse average, distance-weighted average, or skipped. */
  method AggregateField(ps: seq<Piece>, k: nat, m: AggMethod) returns (cell: Option<Cell>)
    requires AllKept(ps)
    ensures cell == MetricCell(ps, k, m)
    ensures cell.None? <==> m.Unrecognised?
    ensures (m.InvAvgGuarded? || m.InvAvgUnguarded?) && CountPresent(ps, k) > 0 ==>
      SumLenPerSpeed(ps, k) > 0.0 && cell == Some(Num(HarmonicMean(ps, k)))
    ensures m.InvAvgGuarded? && CountPresent(ps, k) == 0 ==> cell == Some(Num(0.0))
    ensures m.DistanceWeightedAvg? && ps != [] ==> SumLen(ps) > 0.0 && cell == Some(Num(SumWeighted(ps, k) / SumLen(ps)))
    ensures m.DistanceWeightedAvg? && ps == [] ==> cell == Some(NaN)
  {
    if CountPresent(ps, k) > 0 {
      WtdSpeedIsHarmonicMean(ps, k);
    } else {
      WtdSpeedNoData(ps, k);
    }
    DistWtdAvgFallback(ps, k);
    match m {
      case InvAvgGuarded => cell := Some(Num(WtdSpeedGuarded(ps, k)));
      case InvAvgUnguarded => cell := Some(WtdSpeedUnguarded(ps, k));
      case DistanceWeightedAvg => cell := Some(DistWtdAvg(ps, k));
      case Unrecognised => cell := None;
    }
  }

  /**
   * `conflate_tmc2projline`: the dict `out_row_dict`, filled in the scripts' order. The
   * spatial split and join that produce each direction's pieces happen outside; here they
   * are the input `piecesByDir`.
   */
  method ConflateTmc2ProjLine(projLen: real, dirs: seq<string>, piecesByDir: seq<seq<Piece>>, fields: seq<Field>)
    returns (outRow: Dict<string, Cell>)
    requires |piecesByDir| == |dirs|
    ensures outRow == FromPairs(RowColumns(projLen, ConflateSpec(dirs, piecesByDir, fields)))
  {
    ghost var written: seq<Column> := [(ProjLengthCol, Num(projLen))];
    FromPairsSnoc([], ProjLengthCol, Num(projLen));
    outRow := Put(Empty(), ProjLengthCol, Num(projLen));
    for i := 0 to |dirs|
      invariant outRow == FromPairs(written)
      invariant written == RowColumns(projLen, ConflateSpec(dirs[..i], piecesByDir[..i], fields))
    {
      ghost var r := DirResultOf(dirs[i], fields, piecesByDir[i]);
      FromPairsAppend(written, DirColumns(r));
      outRow := AddDirection(outRow, dirs[i], piecesByDir[i], fields);
      RowColumnsSnoc(projLen, dirs, piecesByDir, fields, i);
      written := written + DirColumns(r);
    }
    assert dirs[..|dirs|] == dirs;
    assert piecesByDir[..|dirs|] == piecesByDir;
  }

  lemma RowColumnsSnoc(projLen: real, dirs: seq<string>, piecesByDir: seq<seq<Piece>>, fields: seq<Field>, i: nat)
    requires |piecesByDir| == |dirs| && i < |dirs|
    ensures RowColumns(projLen, ConflateSpec(dirs[..i + 1], piecesByDir[..i + 1], fields))
      == RowColumns(projLen, ConflateSpec(dirs[..i], piecesByDir[..i], fields)) + DirColumns(DirResultOf(dirs[i], fields, piecesByDir[i]))
  {
    var done := ConflateSpec(dirs[..i], piecesByDir[..i], fields);
    var r := DirResultOf(dirs[i], fields, piecesByDir[i]);
    assert ConflateSpec(dirs[..i + 1], piecesByDir[..i + 1], fields) == done + [r];
    AllDirColumnsSnoc(done, r);
  }
}
