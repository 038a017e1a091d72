/**
 * `simplify_outputs`: which directions of the conflated row a project keeps. Both scripts
 * pick the `_calc_len` column with the most covered length and the one with the next most;
 * a project covered by less than 10% of its length in every direction has no usable data.
 * The part both scripts share is here; what each one returns is in its own module.
 */
module RowSelection {
  import opened Wrappers
  import opened Strings
  import opened PyDict
  import opened Aggregation
  import opened ConflatedRows

  const NoDataCol := "SegmentSpeedData"
  /** Below this share of the project length covered, the project is "not on any TMC". */
  const MinOverlapShare: real := 0.1
  /** Above this ratio of the second-longest to the longest covered length, the road is two-way. */
  const TwoWayShare: real := 0.75

  /** numpy's `a / b` for a length `a >= 0`: a division by zero gives inf or nan, not an error. */
  function Ratio(a: real, b: real): Cell
    requires a >= 0.0
  {
    if b != 0.0 then Num(a / b) else if a > 0.0 then Inf else NaN
  }

  /** `c < t` on a numpy float: false for nan and for inf. */
  predicate Below(c: Cell, t: real)
  {
    c.Num? && c.v < t
  }

  /** `c > t` on a numpy float: true for inf, false for nan. */
  predicate Above(c: Cell, t: real)
  {
    c.Inf? || (c.Num? && c.v > t)
  }

  /** For a positive denominator the comparisons are the plain ones, cleared of the division. */
  lemma RatioCompare(a: real, b: real, t: real)
    requires a >= 0.0 && b > 0.0
    ensures Below(Ratio(a, b), t) <==> a < t * b
    ensures Above(Ratio(a, b), t) <==> a > t * b
  {
    assert (a / b) * b == a;
    if a / b < t {
      MulLe(a / b, t, b);
    } else {
      MulLe(t, a / b, b);
    }
  }

  /** With a zero denominator nothing is "below", and a positive numerator is "above" anything. */
  lemma RatioByZero(a: real, t: real)
    requires a >= 0.0
    ensures !Below(Ratio(a, 0.0), t)
    ensures Above(Ratio(a, 0.0), t) <==> a > 0.0
  {
  }

  /** The columns `re.search('.*_calc_len', name)` picks. */
  predicate IsCalcLenCol(c: Column)
  {
    Contains(c.0, CalcLenSuffix)
  }

  function CalcLenColumns(cols: seq<Column>): (r: seq<Column>)
    ensures |r| <= |cols|
    ensures forall i :: 0 <= i < |r| ==> IsCalcLenCol(r[i])
  {
    if cols == [] then []
    else (if IsCalcLenCol(cols[0]) then [cols[0]] else []) + CalcLenColumns(cols[1..])
  }

  /** The columns `re.match(p, name)` picks, for a pattern `p` of plain letters. */
  function SelectPrefix(cols: seq<Column>, p: string): (r: seq<Column>)
    ensures |r| <= |cols|
    ensures forall i :: 0 <= i < |r| ==> StartsWith(r[i].0, p)
  {
    if cols == [] then []
    else (if StartsWith(cols[0].0, p) then [cols[0]] else []) + SelectPrefix(cols[1..], p)
  }

  /** `in_df[key][0]`: the value of the first column with that name. */
  function Lookup(cols: seq<Column>, key: string): Option<Cell>
  {
    if cols == [] then None else if cols[0].0 == key then Some(cols[0].1) else Lookup(cols[1..], key)
  }

  predicate NumericLens(cs: seq<Column>)
  {
    forall i :: 0 <= i < |cs| ==> cs[i].1.Num? && cs[i].1.v >= 0.0
  }

  function Lens(cs: seq<Column>): (r: seq<real>)
    requires NumericLens(cs)
    ensures forall i :: 0 <= i < |r| ==> r[i] >= 0.0
  {
    seq(|cs|, i requires 0 <= i < |cs| => cs[i].1.v)
  }

  /** The row shape `simplify_outputs` relies on: a numeric project length and at least two numeric covered lengths. */
  predicate Simplifiable(cols: seq<Column>)
  {
    && Lookup(cols, ProjLengthCol).Some?
    && Lookup(cols, ProjLengthCol).value.Num?
    && |CalcLenColumns(cols)| >= 2
    && NumericLens(CalcLenColumns(cols))
  }

  /** `idxmax`: the FIRST index holding the maximum. */
  function FirstMax(xs: seq<real>): (r: nat)
    requires |xs| > 0
    ensures r < |xs|
    ensures forall j :: 0 <= j < |xs| ==> xs[j] <= xs[r]
    ensures forall j :: 0 <= j < r ==> xs[j] < xs[r]
  {
    if |xs| == 1 then 0
    else
      var n := |xs| - 1;
      var m := FirstMax(xs[..n]);
      if xs[n] > xs[m] then n else m
  }

  /** `idxmax` after dropping column `p`: the first index other than `p` holding the largest remaining value. */
  function SecondMax(xs: seq<real>, p: nat): (r: nat)
    requires |xs| >= 2 && p < |xs|
    ensures r < |xs| && r != p
    ensures forall j :: 0 <= j < |xs| && j != p ==> xs[j] <= xs[r]
    ensures forall j :: 0 <= j < r && j != p ==> xs[j] < xs[r]
  {
    var ys := xs[..p] + xs[p + 1..];
    var m := FirstMax(ys);
    DroppedMax(xs, p, ys, m);
    if m < p then m else m + 1
  }

  /** The first maximum of the list without column `p`, read back as an index of the whole list. */
  lemma DroppedMax(xs: seq<real>, p: nat, ys: seq<real>, m: nat)
    requires p < |xs| && ys == xs[..p] + xs[p + 1..] && m < |ys|
    requires forall j :: 0 <= j < |ys| ==> ys[j] <= ys[m]
    requires forall j :: 0 <= j < m ==> ys[j] < ys[m]
    ensures var r := if m < p then m else m + 1;
      && r < |xs| && r != p
      && (forall j :: 0 <= j < |xs| && j != p ==> xs[j] <= xs[r])
      && (forall j :: 0 <= j < r && j != p ==> xs[j] < xs[r])
  {
    var r := if m < p then m else m + 1;
    assert forall j :: 0 <= j < p ==> ys[j] == xs[j];
    assert forall j :: p <= j < |ys| ==> ys[j] == xs[j + 1];
    assert xs[r] == ys[m];
    forall j | 0 <= j < |xs| && j != p
      ensures xs[j] <= xs[r] && (j < r ==> xs[j] < xs[r])
    {
      if j < p { assert xs[j] == ys[j]; } else { assert xs[j] == ys[j - 1]; }
    }
  }

  /**
   * The outcome of the length test: no usable data, or the columns of the longest and the
   * second-longest covered lengths with those lengths.
   */
  datatype Overlap = NoOverlap | Overlap(maxCol: string, maxLen: real, secCol: string, secLen: real)

  /**
   * The length test of both `simplify_outputs`: the first maximum covered length, no data
   * when it is under 10% of the project, else the first maximum among the others. On the
   * conflated row, `ChooseOnConflatedRow` states this outcome exactly.
   */
  function ChooseDirections(cols: seq<Column>): (o: Overlap)
    requires Simplifiable(cols)
    ensures o.Overlap? ==> Contains(o.maxCol, CalcLenSuffix) && Contains(o.secCol, CalcLenSuffix)
    ensures o.Overlap? ==> 0.0 <= o.secLen <= o.maxLen
  {
    var projLen := Lookup(cols, ProjLengthCol).value.v;
    var lc := CalcLenColumns(cols);
    var lens := Lens(lc);
    var p := FirstMax(lens);
    if Below(Ratio(lens[p], projLen), MinOverlapShare) then NoOverlap
    else
      var q := SecondMax(lens, p);
      Overlap(lc[p].0, lens[p], lc[q].0, lens[q])
  }

  /** `col[:col.find('_calc_len')]`: the direction a covered-length column belongs to. */
  function DirOf(col: string): string
    requires Contains(col, CalcLenSuffix)
  {
    ContainsFind(col, CalcLenSuffix);
    col[..Find(col, CalcLenSuffix)]
  }

  /** The single record `{'SegmentSpeedData': -1}` that stands for "no data". */
  function NoDataRecord(): seq<Column>
  {
    [(NoDataCol, Num(-1.0))]
  }

  // ---------------------------------------------------------------- rows built by conflate_tmc2projline

  /**
   * A direction name the column tests can tell apart: nonempty, not starting with the 'p'
   * of "proj_length_ft", and without '_' (so "_calc_len" is found right after it).
   */
  predicate WellFormedDir(d: string)
  {
    |d| > 0 && d[0] != 'p' && NoChar(d, '_')
  }

  /** The directions, pairwise distinguishable by their first letter. */
  predicate WellFormedDirs(dirs: seq<string>)
  {
    && (forall i :: 0 <= i < |dirs| ==> WellFormedDir(dirs[i]))
    && (forall i, j :: 0 <= i < j < |dirs| ==> dirs[i][0] != dirs[j][0])
  }

  /** The field table is a dict (distinct names) and no field name contains "_calc_len". */
  predicate WellFormedFields(fields: seq<Field>)
  {
    && Distinct(KeysOf(fields))
    && (forall i :: 0 <= i < |fields| ==> !Contains(fields[i].0, CalcLenSuffix))
  }

  predicate WellFormedResult(r: DirResult)
  {
    && WellFormedDir(r.dir)
    && r.calcLen >= 0.0
    && Distinct(KeysOf(r.metrics))
    && (forall i :: 0 <= i < |r.metrics| ==> !Contains(r.metrics[i].0, CalcLenSuffix))
  }

  predicate WellFormedResults(rs: seq<DirResult>)
  {
    && (forall i :: 0 <= i < |rs| ==> WellFormedResult(rs[i]))
    && (forall i, j :: 0 <= i < j < |rs| ==> rs[i].dir[0] != rs[j].dir[0])
  }

  lemma ConflateSpecWellFormed(dirs: seq<string>, piecesByDir: seq<seq<Piece>>, fields: seq<Field>)
    requires |piecesByDir| == |dirs|
    requires WellFormedDirs(dirs) && WellFormedFields(fields)
    ensures WellFormedResults(ConflateSpec(dirs, piecesByDir, fields))
  {
    var rs := ConflateSpec(dirs, piecesByDir, fields);
    RecognisedNamesOf(fields);
    forall i | 0 <= i < |rs|
      ensures WellFormedResult(rs[i])
    {
      var ps := Retained(piecesByDir[i]);
      SumLenSign(ps);
      MetricsOfNames(fields, ps);
      var names := RecognisedNames(fields);
      forall k | 0 <= k < |rs[i].metrics|
        ensures !Contains(rs[i].metrics[k].0, CalcLenSuffix)
      {
        assert rs[i].metrics[k].0 == names[k];
        var f :| 0 <= f < |fields| && KeysOf(fields)[f] == names[k];
      }
    }
  }

  /** The covered lengths, direction by direction. */
  function CalcLens(rs: seq<DirResult>): seq<real>
  {
    seq(|rs|, i requires 0 <= i < |rs| => rs[i].calcLen)
  }

  function CalcCol(r: DirResult): Column
  {
    (r.dir + CalcLenSuffix, Num(r.calcLen))
  }

  function CalcCols(rs: seq<DirResult>): seq<Column>
  {
    seq(|rs|, i requires 0 <= i < |rs| => CalcCol(rs[i]))
  }

  lemma {:induction false} CalcLenColumnsConcat(a: seq<Column>, b: seq<Column>)
    ensures CalcLenColumns(a + b) == CalcLenColumns(a) + CalcLenColumns(b)
  {
    if a != [] {
      assert (a + b)[1..] == a[1..] + b;
      CalcLenColumnsConcat(a[1..], b);
    } else {
      assert a + b == b;
    }
  }

  lemma {:induction false} SelectPrefixConcat(a: seq<Column>, b: seq<Column>, p: string)
    ensures SelectPrefix(a + b, p) == SelectPrefix(a, p) + SelectPrefix(b, p)
  {
    if a != [] {
      assert (a + b)[1..] == a[1..] + b;
      SelectPrefixConcat(a[1..], b, p);
    } else {
      assert a + b == b;
    }
  }

  lemma {:induction false} CalcLenColumnsNone(cs: seq<Column>)
    requires forall i :: 0 <= i < |cs| ==> !IsCalcLenCol(cs[i])
    ensures CalcLenColumns(cs) == []
  {
    if cs != [] {
      CalcLenColumnsNone(cs[1..]);
    }
  }

  lemma {:induction false} SelectPrefixNone(cs: seq<Column>, p: string)
    requires forall i :: 0 <= i < |cs| ==> !StartsWith(cs[i].0, p)
    ensures SelectPrefix(cs, p) == []
  {
    if cs != [] {
      SelectPrefixNone(cs[1..], p);
    }
  }

  lemma {:induction false} SelectPrefixAll(cs: seq<Column>, p: string)
    requires forall i :: 0 <= i < |cs| ==> StartsWith(cs[i].0, p)
    ensures SelectPrefix(cs, p) == cs
  {
    if cs != [] {
      SelectPrefixAll(cs[1..], p);
    }
  }

  lemma StartsWithConcat(d: string, x: string)
    ensures StartsWith(d + x, d)
  {
    assert (d + x)[..|d|] == d;
  }

  lemma HeadsDiffer(s: string, d: string, e: string)
    requires StartsWith(s, d) && |d| > 0 && |e| > 0 && d[0] != e[0]
    ensures !StartsWith(s, e)
  {
    assert s[0] == s[..|d|][0];
  }

  /** One direction's columns hold exactly one covered-length column: its first. */
  lemma DirCalcLen(r: DirResult)
    requires WellFormedResult(r)
    ensures CalcLenColumns(DirColumns(r)) == [CalcCol(r)]
  {
    var ms := Prefixed(r.dir, r.metrics);
    ContainsSuffix(r.dir, CalcLenSuffix);
    forall k | 0 <= k < |ms|
      ensures !IsCalcLenCol(ms[k])
    {
      ConcatNotContains(r.dir, r.metrics[k].0, CalcLenSuffix);
    }
    CalcLenColumnsNone(ms);
    CalcLenColumnsConcat([CalcCol(r)], ms);
  }

  /** Every column of one direction is named after it. */
  lemma DirPrefixed(r: DirResult)
    ensures forall k :: 0 <= k < |DirColumns(r)| ==> StartsWith(DirColumns(r)[k].0, r.dir)
    ensures SelectPrefix(DirColumns(r), r.dir) == DirColumns(r)
  {
    var cs := DirColumns(r);
    forall k | 0 <= k < |cs|
      ensures StartsWith(cs[k].0, r.dir)
    {
      if k == 0 {
        StartsWithConcat(r.dir, CalcLenSuffix);
      } else {
        StartsWithConcat(r.dir, r.metrics[k - 1].0);
      }
    }
    SelectPrefixAll(cs, r.dir);
  }

  lemma StripPrefix(d: string, x: string)
    ensures (d + x)[|d|..] == x
  {
  }

  /** No column name repeats within one direction. */
  lemma DirDistinct(r: DirResult)
    requires WellFormedResult(r)
    ensures Distinct(KeysOf(DirColumns(r)))
  {
    var cs := DirColumns(r);
    var ks := KeysOf(cs);
    var n := |r.dir|;
    forall a, b | 0 <= a < b < |ks|
      ensures ks[a] != ks[b]
    {
      var mb := r.metrics[b - 1].0;
      assert ks[b] == r.dir + mb;
      StripPrefix(r.dir, mb);
      if a == 0 {
        StripPrefix(r.dir, CalcLenSuffix);
        assert OccursAt(CalcLenSuffix, CalcLenSuffix, 0);
        assert mb != CalcLenSuffix;
      } else {
        var ma := r.metrics[a - 1].0;
        assert ks[a] == r.dir + ma;
        StripPrefix(r.dir, ma);
        assert KeysOf(r.metrics)[a - 1] != KeysOf(r.metrics)[b - 1];
      }
    }
  }

  /** `name` begins with one of the direction names. */
  predicate NamedAfterSome(name: string, rs: seq<DirResult>)
  {
    exists j :: 0 <= j < |rs| && StartsWith(name, rs[j].dir)
  }

  /** Every column of the direction blocks is named after one of the directions. */
  lemma {:induction false} AllDirColumnsHeads(rs: seq<DirResult>)
    requires WellFormedResults(rs)
    ensures forall k :: 0 <= k < |AllDirColumns(rs)| ==> NamedAfterSome(AllDirColumns(rs)[k].0, rs)
  {
    if rs != [] {
      var n := |rs| - 1;
      var pre := rs[..n];
      WellFormedPrefix(rs, n);
      AllDirColumnsHeads(pre);
      DirPrefixed(rs[n]);
      var a: seq<Column>, b: seq<Column> := AllDirColumns(pre), DirColumns(rs[n]);
      assert AllDirColumns(rs) == a + b;
      forall k | 0 <= k < |a + b|
        ensures NamedAfterSome((a + b)[k].0, rs)
      {
        if k < |a| {
          assert NamedAfterSome(a[k].0, pre);
          var j :| 0 <= j < |pre| && StartsWith(a[k].0, pre[j].dir);
          assert (a + b)[k] == a[k];
          assert rs[j] == pre[j];
        } else {
          assert (a + b)[k] == b[k - |a|];
          assert StartsWith(b[k - |a|].0, rs[n].dir);
        }
      }
    }
  }

  /** No column of the other directions is named after direction `rs[i]`. */
  lemma OthersNotPrefixed(rs: seq<DirResult>, d: string)
    requires WellFormedResults(rs) && |d| > 0
    requires forall j :: 0 <= j < |rs| ==> rs[j].dir[0] != d[0]
    ensures forall k :: 0 <= k < |AllDirColumns(rs)| ==> !StartsWith(AllDirColumns(rs)[k].0, d)
  {
    AllDirColumnsHeads(rs);
    forall k | 0 <= k < |AllDirColumns(rs)|
      ensures !StartsWith(AllDirColumns(rs)[k].0, d)
    {
      assert NamedAfterSome(AllDirColumns(rs)[k].0, rs);
      var j :| 0 <= j < |rs| && StartsWith(AllDirColumns(rs)[k].0, rs[j].dir);
      HeadsDiffer(AllDirColumns(rs)[k].0, rs[j].dir, d);
    }
  }

  lemma WellFormedPrefix(rs: seq<DirResult>, n: nat)
    requires WellFormedResults(rs) && n <= |rs|
    ensures WellFormedResults(rs[..n])
  {
  }

  /** The covered-length columns of the direction blocks are one per direction, in order. */
  lemma {:induction false} AllDirCalcLens(rs: seq<DirResult>)
    requires WellFormedResults(rs)
    ensures CalcLenColumns(AllDirColumns(rs)) == CalcCols(rs)
  {
    if rs != [] {
      var n := |rs| - 1;
      WellFormedPrefix(rs, n);
      AllDirCalcLens(rs[..n]);
      DirCalcLen(rs[n]);
      CalcLenColumnsConcat(AllDirColumns(rs[..n]), DirColumns(rs[n]));
      assert CalcCols(rs) == CalcCols(rs[..n]) + [CalcCol(rs[n])];
    }
  }

  /** `re.match(dir, name)` over the direction blocks picks exactly that direction's block. */
  lemma {:induction false} AllDirSelect(rs: seq<DirResult>, i: nat)
    requires WellFormedResults(rs) && i < |rs|
    ensures SelectPrefix(AllDirColumns(rs), rs[i].dir) == DirColumns(rs[i])
  {
    var n := |rs| - 1;
    var pre := rs[..n];
    WellFormedPrefix(rs, n);
    DirPrefixed(rs[n]);
    SelectPrefixConcat(AllDirColumns(pre), DirColumns(rs[n]), rs[i].dir);
    if i == n {
      OthersNotPrefixed(pre, rs[n].dir);
      SelectPrefixNone(AllDirColumns(pre), rs[n].dir);
    } else {
      AllDirSelect(pre, i);
      forall k | 0 <= k < |DirColumns(rs[n])|
        ensures !StartsWith(DirColumns(rs[n])[k].0, rs[i].dir)
      {
        HeadsDiffer(DirColumns(rs[n])[k].0, rs[n].dir, rs[i].dir);
      }
      SelectPrefixNone(DirColumns(rs[n]), rs[i].dir);
    }
  }

  lemma KeysOfConcat(a: seq<Column>, b: seq<Column>)
    ensures KeysOf(a + b) == KeysOf(a) + KeysOf(b)
  {
  }

  lemma DistinctConcat(a: seq<string>, b: seq<string>)
    requires Distinct(a) && Distinct(b)
    requires forall i, j :: 0 <= i < |a| && 0 <= j < |b| ==> a[i] != b[j]
    ensures Distinct(a + b)
  {
  }

  /** No column name repeats across the direction blocks. */
  lemma {:induction false} AllDirDistinct(rs: seq<DirResult>)
    requires WellFormedResults(rs)
    ensures Distinct(KeysOf(AllDirColumns(rs)))
  {
    if rs != [] {
      var n := |rs| - 1;
      var pre := rs[..n];
      WellFormedPrefix(rs, n);
      AllDirDistinct(pre);
      DirDistinct(rs[n]);
      DirPrefixed(rs[n]);
      OthersNotPrefixed(pre, rs[n].dir);
      var a: seq<Column>, b: seq<Column> := AllDirColumns(pre), DirColumns(rs[n]);
      KeysOfConcat(a, b);
      forall x, y | 0 <= x < |a| && 0 <= y < |b|
        ensures KeysOf(a)[x] != KeysOf(b)[y]
      {
        assert StartsWith(b[y].0, rs[n].dir);
        assert !StartsWith(a[x].0, rs[n].dir);
      }
      DistinctConcat(KeysOf(a), KeysOf(b));
    }
  }

  lemma ProjLengthColShape()
    ensures !Contains(ProjLengthCol, CalcLenSuffix)
    ensures ProjLengthCol[0] == 'p'
  {
    assert NoPair(ProjLengthCol, '_', 'c');
    NoPairNotContains(ProjLengthCol, CalcLenSuffix);
  }

  lemma RowCalcLens(projLen: real, rs: seq<DirResult>)
    requires WellFormedResults(rs)
    ensures CalcLenColumns(RowColumns(projLen, rs)) == CalcCols(rs)
  {
    var head := [(ProjLengthCol, Num(projLen))];
    ProjLengthColShape();
    CalcLenColumnsNone(head);
    CalcLenColumnsConcat(head, AllDirColumns(rs));
    AllDirCalcLens(rs);
  }

  lemma RowSelect(projLen: real, rs: seq<DirResult>, i: nat)
    requires WellFormedResults(rs) && i < |rs|
    ensures SelectPrefix(RowColumns(projLen, rs), rs[i].dir) == DirColumns(rs[i])
  {
    var head := [(ProjLengthCol, Num(projLen))];
    ProjLengthColShape();
    assert StartsWith(ProjLengthCol, "p");
    HeadsDiffer(ProjLengthCol, "p", rs[i].dir);
    SelectPrefixNone(head, rs[i].dir);
    SelectPrefixConcat(head, AllDirColumns(rs), rs[i].dir);
    AllDirSelect(rs, i);
  }

  lemma RowDistinct(projLen: real, rs: seq<DirResult>)
    requires WellFormedResults(rs)
    ensures Distinct(KeysOf(RowColumns(projLen, rs)))
  {
    var head := [(ProjLengthCol, Num(projLen))];
    var rest := AllDirColumns(rs);
    ProjLengthColShape();
    assert StartsWith(ProjLengthCol, "p");
    AllDirDistinct(rs);
    AllDirColumnsHeads(rs);
    KeysOfConcat(head, rest);
    forall y | 0 <= y < |rest|
      ensures KeysOf(head)[0] != KeysOf(rest)[y]
    {
      assert NamedAfterSome(rest[y].0, rs);
      var j :| 0 <= j < |rs| && StartsWith(rest[y].0, rs[j].dir);
      HeadsDiffer(rest[y].0, rs[j].dir, "p");
      if rest[y].0 == ProjLengthCol {
        HeadsDiffer(ProjLengthCol, "p", rs[j].dir);
      }
    }
    DistinctConcat(KeysOf(head), KeysOf(rest));
  }

  /**
   * The row `conflate_tmc2projline` builds has what `simplify_outputs` looks for: the
   * project length first, one covered-length column per direction in direction order, each
   * direction's block found by its name, and no column name twice (so the dict keeps every
   * assignment and the DataFrame's columns are the row's columns).
   */
  lemma ConflatedRowShape(projLen: real, rs: seq<DirResult>)
    requires WellFormedResults(rs)
    ensures Lookup(RowColumns(projLen, rs), ProjLengthCol) == Some(Num(projLen))
    ensures CalcLenColumns(RowColumns(projLen, rs)) == CalcCols(rs)
    ensures forall i :: 0 <= i < |rs| ==> SelectPrefix(RowColumns(projLen, rs), rs[i].dir) == DirColumns(rs[i])
    ensures Distinct(KeysOf(RowColumns(projLen, rs)))
    ensures Valid(FromPairs(RowColumns(projLen, rs)))
    ensures Items(FromPairs(RowColumns(projLen, rs))) == RowColumns(projLen, rs)
  {
    RowCalcLens(projLen, rs);
    forall i | 0 <= i < |rs|
      ensures SelectPrefix(RowColumns(projLen, rs), rs[i].dir) == DirColumns(rs[i])
    {
      RowSelect(projLen, rs, i);
    }
    RowDistinct(projLen, rs);
    ItemsFromPairs(RowColumns(projLen, rs));
  }

  /** A covered-length column of a well-formed direction names that direction. */
  lemma DirOfCalcCol(d: string)
    requires WellFormedDir(d)
    ensures Contains(d + CalcLenSuffix, CalcLenSuffix)
    ensures DirOf(d + CalcLenSuffix) == d
  {
    ContainsSuffix(d, CalcLenSuffix);
    FindAfterPrefix(d, CalcLenSuffix);
  }

  lemma LensOfCalcCols(rs: seq<DirResult>)
    requires WellFormedResults(rs)
    ensures NumericLens(CalcCols(rs))
    ensures Lens(CalcCols(rs)) == CalcLens(rs)
  {
  }

  /**
   * On a conflated row, the length test reads the covered lengths in direction order: the
   * project has no usable data exactly when the first longest covered length is below 10%
   * of the project length; otherwise the chosen columns are those of the first longest
   * direction and of the first longest among the others.
   */
  lemma ChooseOnConflatedRow(projLen: real, rs: seq<DirResult>)
    requires WellFormedResults(rs) && |rs| >= 2
    ensures Simplifiable(RowColumns(projLen, rs))
    ensures var lens := CalcLens(rs);
      var p := FirstMax(lens);
      var q := SecondMax(lens, p);
      ChooseDirections(RowColumns(projLen, rs)) ==
        if Below(Ratio(lens[p], projLen), MinOverlapShare) then NoOverlap
        else Overlap(rs[p].dir + CalcLenSuffix, lens[p], rs[q].dir + CalcLenSuffix, lens[q])
  {
    RowCalcLens(projLen, rs);
    assert RowColumns(projLen, rs)[0] == (ProjLengthCol, Num(projLen));
    LensOfCalcCols(rs);
  }

  /**
   * ... and the columns `re.match(direction, name)` then selects are exactly that
   * direction's block: its covered length followed by its aggregates.
   */
  lemma SelectedBlocks(projLen: real, rs: seq<DirResult>)
    requires WellFormedResults(rs) && |rs| >= 2
    ensures Simplifiable(RowColumns(projLen, rs))
    ensures var o := ChooseDirections(RowColumns(projLen, rs));
      var lens := CalcLens(rs);
      var p := FirstMax(lens);
      var q := SecondMax(lens, p);
      o.Overlap? ==>
        && SelectPrefix(RowColumns(projLen, rs), DirOf(o.maxCol)) == DirColumns(rs[p])
        && SelectPrefix(RowColumns(projLen, rs), DirOf(o.secCol)) == DirColumns(rs[q])
  {
    ChooseOnConflatedRow(projLen, rs);
    ConflatedRowShape(projLen, rs);
    var lens := CalcLens(rs);
    var p := FirstMax(lens);
    var q := SecondMax(lens, p);
    DirOfCalcCol(rs[p].dir);
    DirOfCalcCol(rs[q].dir);
  }
}
