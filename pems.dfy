/**
 * `tmc2pems`: tagging PeMS count stations with the NPMRDS TMC they sit on.
 *
 * The GIS steps (buffering the TMCs, selecting stations within 50 feet of a TMC) are
 * inputs here: `nearby(tmc)` is the cursor order of the stations the location selection
 * returns for that TMC. The model keeps the dictionaries the script fills in loops:
 * TMC -> signed direction, the buffered TMCs, TMC -> station ids, and the reverse
 * station id -> TMC dictionary it returns.
 */
module PemsConflation {
  import opened Wrappers
  import opened PyDict

  // ---------------------------------------------------------------- direction translation

  const SignedDirections: seq<string> := ["NORTHBOUND", "SOUTHBOUND", "EASTBOUND", "WESTBOUND"]
  const PemsDirections: seq<string> := ["N", "S", "E", "W"]

  function Zip<A, B>(a: seq<A>, b: seq<B>): (r: seq<(A, B)>)
    requires |a| == |b|
    ensures |r| == |a| && forall i :: 0 <= i < |a| ==> r[i] == (a[i], b[i])
  {
    seq(|a|, i requires 0 <= i < |a| => (a[i], b[i]))
  }

  /** `dict(zip(vals_direcn_tmc, vals_direcn_pems))` */
  function DirDict(): Dict<string, string>
  {
    FromPairs(Zip(SignedDirections, PemsDirections))
  }

  lemma SignedDirectionsDistinct()
    ensures Distinct(KeysOf(Zip(SignedDirections, PemsDirections)))
  {
    var ks := KeysOf(Zip(SignedDirections, PemsDirections));
    assert ks == SignedDirections;
    assert ks[0][0] == 'N' && ks[1][0] == 'S' && ks[2][0] == 'E' && ks[3][0] == 'W';
  }

  /** The direction dictionary lists the four signed directions, each with its one-letter PeMS code. */
  lemma DirDictEntries()
    ensures DirDict().keys == SignedDirections
    ensures forall i :: 0 <= i < 4 ==> SignedDirections[i] in DirDict().m && DirDict().m[SignedDirections[i]] == PemsDirections[i]
  {
    var ps := Zip(SignedDirections, PemsDirections);
    SignedDirectionsDistinct();
    FromPairsDistinctKeys(ps);
    assert KeysOf(ps) == SignedDirections;
    forall i | 0 <= i < 4
      ensures SignedDirections[i] in DirDict().m && DirDict().m[SignedDirections[i]] == PemsDirections[i]
    {
      FromPairsDistinctValues(ps, i);
    }
  }

  /** `dict_dirvals_tmc_pems[tmc_sign_dir]`: the PeMS code of a signed direction, KeyError for any other text. */
  function PemsDir(signDir: string): (r: Result<string, PyError>)
    ensures r.Err? <==> signDir !in SignedDirections
    ensures r.Err? ==> r.error == KeyError(signDir)
    ensures forall i :: 0 <= i < 4 && SignedDirections[i] == signDir ==> r == Ok(PemsDirections[i])
  {
    DirDictEntries();
    FromPairsValid(Zip(SignedDirections, PemsDirections));
    var d := DirDict();
    if signDir in d.m then Ok(d.m[signDir]) else Err(KeyError(signDir))
  }

  /** Different signed directions select stations of different PeMS directions. */
  lemma PemsDirInjective(a: string, b: string)
    requires PemsDir(a).Ok? && PemsDir(b).Ok? && a != b
    ensures PemsDir(a).value != PemsDir(b).value
  {
    var i :| 0 <= i < 4 && SignedDirections[i] == a;
    var j :| 0 <= j < 4 && SignedDirections[j] == b;
    assert PemsDirections[i][0] != PemsDirections[j][0];
  }

  // ---------------------------------------------------------------- dictionaries built row by row

  /**
   * `{row['tmc']: row['direction'] for row in ...}` and the buffer cursor loop
   * `dict_tmcs_buffer[tmc] = hwynum`: each row assigns its key, a later row overriding an earlier one.
   */
  method BuildDict(rows: seq<(string, string)>) returns (d: Dict<string, string>)
    ensures d == FromPairs(rows)
    ensures forall k :: k in d.m <==> exists i :: 0 <= i < |rows| && rows[i].0 == k
    ensures forall i :: 0 <= i < |rows| && (forall j :: i < j < |rows| ==> rows[j].0 != rows[i].0) ==>
      rows[i].0 in d.m && d.m[rows[i].0] == rows[i].1
  {
    d := Empty();
    for i := 0 to |rows|
      invariant d == FromPairs(rows[..i])
    {
      assert rows[..i + 1] == rows[..i] + [rows[i]];
      FromPairsSnoc(rows[..i], rows[i].0, rows[i].1);
      d := Put(d, rows[i].0, rows[i].1);
    }
    assert rows[..|rows|] == rows;
    forall k
      ensures k in d.m <==> exists i :: 0 <= i < |rows| && rows[i].0 == k
    {
      FromPairsDomain(rows, k);
    }
    forall i | 0 <= i < |rows| && (forall j :: i < j < |rows| ==> rows[j].0 != rows[i].0)
      ensures rows[i].0 in d.m && d.m[rows[i].0] == rows[i].1
    {
      FromPairsLastWins(rows, i);
    }
  }

  // ---------------------------------------------------------------- stations of one TMC

  /** A PeMS station: its id and its direction code (`Dir`). */
  datatype Station = Station(sid: int, dir: string)

  /** The ids of the stations whose direction is `dir`, in cursor order (the `SUBSET_SELECTION` on `Dir`). */
  function MatchingIds(stns: seq<Station>, dir: string): (r: seq<int>)
    ensures |r| <= |stns|
  {
    if stns == [] then []
    else
      var n := |stns| - 1;
      MatchingIds(stns[..n], dir) + (if stns[n].dir == dir then [stns[n].sid] else [])
  }

  /** A station id is listed exactly when some station with that id has the wanted direction. */
  lemma {:induction false} MatchingIdsMembers(stns: seq<Station>, dir: string, s: int)
    ensures s in MatchingIds(stns, dir) <==> exists i :: 0 <= i < |stns| && stns[i].sid == s && stns[i].dir == dir
    decreases |stns|
  {
    if stns != [] {
      var n := |stns| - 1;
      MatchingIdsMembers(stns[..n], dir, s);
      if exists i :: 0 <= i < n && stns[..n][i].sid == s && stns[..n][i].dir == dir {
        var i :| 0 <= i < n && stns[..n][i].sid == s && stns[..n][i].dir == dir;
        assert stns[i] == stns[..n][i];
      }
      if exists i :: 0 <= i < |stns| && stns[i].sid == s && stns[i].dir == dir {
        var i :| 0 <= i < |stns| && stns[i].sid == s && stns[i].dir == dir;
        if i < n {
          assert stns[..n][i] == stns[i];
        }
      }
    }
  }

  /** The cursor loop over the selected stations, appending each id to `list_tmc_stns`. */
  method CursorIds(selected: seq<Station>, dir: string) returns (ids: seq<int>)
    ensures ids == MatchingIds(selected, dir)
  {
    ids := [];
    for i := 0 to |selected|
      invariant ids == MatchingIds(selected[..i], dir)
    {
      assert selected[..i + 1][..i] == selected[..i];
      if selected[i].dir == dir {
        ids := ids + [selected[i].sid];
      }
    }
    assert selected[..|selected|] == selected;
  }

  /**
   * One pass of the TMC loop: the TMC's signed direction (KeyError when the TMC is not in the
   * specification CSV), its PeMS code (KeyError for an unknown direction), then the nearby
   * stations with that code.
   */
  function TmcStations(tmc: string, sdir: Dict<string, string>, nearby: string -> seq<Station>): (r: Result<seq<int>, PyError>)
    ensures r.Err? <==> tmc !in sdir.m || sdir.m[tmc] !in SignedDirections
    ensures r.Err? ==> r.error == if tmc !in sdir.m then KeyError(tmc) else KeyError(sdir.m[tmc])
  {
    if tmc !in sdir.m then Err(KeyError(tmc))
    else match PemsDir(sdir.m[tmc])
      case Err(e) => Err(e)
      case Ok(d) => Ok(MatchingIds(nearby(tmc), d))
  }

  /** A TMC lists exactly the nearby stations whose direction is its own signed direction's code. */
  lemma TmcStationsMembers(tmc: string, sdir: Dict<string, string>, nearby: string -> seq<Station>, s: int)
    requires TmcStations(tmc, sdir, nearby).Ok?
    ensures tmc in sdir.m && PemsDir(sdir.m[tmc]).Ok?
    ensures s in TmcStations(tmc, sdir, nearby).value <==>
      exists i :: 0 <= i < |nearby(tmc)| && nearby(tmc)[i].sid == s && nearby(tmc)[i].dir == PemsDir(sdir.m[tmc]).value
  {
    MatchingIdsMembers(nearby(tmc), PemsDir(sdir.m[tmc]).value, s);
  }

  /** The TMC loop over `keys`: stops at the first TMC that fails, else pairs each TMC with its stations. */
  function StationPairs(keys: seq<string>, sdir: Dict<string, string>, nearby: string -> seq<Station>): (r: Result<seq<(string, seq<int>)>, PyError>)
    ensures r.Ok? ==> |r.value| == |keys|
    ensures r.Ok? ==> forall i :: 0 <= i < |keys| ==>
      TmcStations(keys[i], sdir, nearby).Ok? && r.value[i] == (keys[i], TmcStations(keys[i], sdir, nearby).value)
  {
    if keys == [] then Ok([])
    else
      var n := |keys| - 1;
      match StationPairs(keys[..n], sdir, nearby)
      case Err(e) => Err(e)
      case Ok(ps) =>
        match TmcStations(keys[n], sdir, nearby)
        case Err(e) => Err(e)
        case Ok(l) =>
          assert forall i :: 0 <= i < n ==> keys[..n][i] == keys[i];
          Ok(ps + [(keys[n], l)])
  }

  /** The loop completes exactly when every TMC in it passes. */
  lemma {:induction false} StationPairsOk(keys: seq<string>, sdir: Dict<string, string>, nearby: string -> seq<Station>)
    ensures StationPairs(keys, sdir, nearby).Ok? <==> forall i :: 0 <= i < |keys| ==> TmcStations(keys[i], sdir, nearby).Ok?
    decreases |keys|
  {
    if keys != [] {
      var n := |keys| - 1;
      StationPairsOk(keys[..n], sdir, nearby);
      assert forall i :: 0 <= i < n ==> keys[..n][i] == keys[i];
    }
  }

  /** When the loop fails, it fails with the error of the first TMC that fails. */
  lemma {:induction false} StationPairsErr(keys: seq<string>, sdir: Dict<string, string>, nearby: string -> seq<Station>)
    requires StationPairs(keys, sdir, nearby).Err?
    ensures exists i :: (0 <= i < |keys| && TmcStations(keys[i], sdir, nearby).Err?
      && StationPairs(keys, sdir, nearby).error == TmcStations(keys[i], sdir, nearby).error
      && forall j :: 0 <= j < i ==> TmcStations(keys[j], sdir, nearby).Ok?)
    decreases |keys|
  {
    var n := |keys| - 1;
    var pre := keys[..n];
    assert forall j :: 0 <= j < n ==> pre[j] == keys[j];
    if StationPairs(pre, sdir, nearby).Err? {
      StationPairsErr(pre, sdir, nearby);
      var i :| 0 <= i < n && TmcStations(pre[i], sdir, nearby).Err?
        && StationPairs(pre, sdir, nearby).error == TmcStations(pre[i], sdir, nearby).error
        && forall j :: 0 <= j < i ==> TmcStations(pre[j], sdir, nearby).Ok?;
      assert TmcStations(keys[i], sdir, nearby).Err?;
    } else {
      StationPairsOk(pre, sdir, nearby);
      assert TmcStations(keys[n], sdir, nearby).Err?;
    }
  }

  /** The loop fails exactly when one of its TMCs has no signed direction or an unknown one. */
  lemma StationPairsFails(keys: seq<string>, sdir: Dict<string, string>, nearby: string -> seq<Station>)
    ensures StationPairs(keys, sdir, nearby).Err? <==> exists k :: k in keys && (k !in sdir.m || sdir.m[k] !in SignedDirections)
  {
    StationPairsOk(keys, sdir, nearby);
    if StationPairs(keys, sdir, nearby).Err? {
      var i :| 0 <= i < |keys| && TmcStations(keys[i], sdir, nearby).Err?;
      assert keys[i] in keys;
    }
    if exists k :: k in keys && (k !in sdir.m || sdir.m[k] !in SignedDirections) {
      var k :| k in keys && (k !in sdir.m || sdir.m[k] !in SignedDirections);
      var i :| 0 <= i < |keys| && keys[i] == k;
      assert TmcStations(keys[i], sdir, nearby).Err?;
    }
  }

  /** Once a prefix of the loop fails, the whole loop fails the same way. */
  lemma {:induction false} StationPairsStops(keys: seq<string>, j: nat, sdir: Dict<string, string>, nearby: string -> seq<Station>)
    requires j <= |keys| && StationPairs(keys[..j], sdir, nearby).Err?
    ensures StationPairs(keys, sdir, nearby) == StationPairs(keys[..j], sdir, nearby)
    decreases |keys| - j
  {
    if j < |keys| {
      var n := |keys| - 1;
      assert keys[..n][..j] == keys[..j];
      StationPairsStops(keys[..n], j, sdir, nearby);
    } else {
      assert keys[..j] == keys;
    }
  }

  /** One more TMC through the loop: its error, or its pair appended. */
  lemma StationPairsStep(keys: seq<string>, i: nat, sdir: Dict<string, string>, nearby: string -> seq<Station>)
    requires i < |keys| && StationPairs(keys[..i], sdir, nearby).Ok?
    ensures TmcStations(keys[i], sdir, nearby).Err? ==>
      StationPairs(keys[..i + 1], sdir, nearby) == Err(TmcStations(keys[i], sdir, nearby).error)
    ensures TmcStations(keys[i], sdir, nearby).Ok? ==>
      StationPairs(keys[..i + 1], sdir, nearby) ==
        Ok(StationPairs(keys[..i], sdir, nearby).value + [(keys[i], TmcStations(keys[i], sdir, nearby).value)])
  {
    assert keys[..i + 1][..i] == keys[..i];
  }

  /**
   * The loop that fills `dict_tmc_pemsstns`: for each buffered TMC in insertion order, its
   * list of station ids; the first TMC that fails a lookup raises.
   */
  method StationLists(buffer: Dict<string, string>, sdir: Dict<string, string>, nearby: string -> seq<Station>)
    returns (r: Result<Dict<string, seq<int>>, PyError>)
    requires Valid(buffer)
    ensures StationPairs(buffer.keys, sdir, nearby).Err? ==> r == Err(StationPairs(buffer.keys, sdir, nearby).error)
    ensures StationPairs(buffer.keys, sdir, nearby).Ok? ==> r == Ok(FromPairs(StationPairs(buffer.keys, sdir, nearby).value))
  {
    var lists: Dict<string, seq<int>> := Empty();
    var i := 0;
    while i < |buffer.keys|
      invariant 0 <= i <= |buffer.keys|
      invariant StationPairs(buffer.keys[..i], sdir, nearby).Ok?
      invariant lists == FromPairs(StationPairs(buffer.keys[..i], sdir, nearby).value)
    {
      var tmc := buffer.keys[i];
      StationPairsStep(buffer.keys, i, sdir, nearby);
      if tmc !in sdir.m {
        StationPairsStops(buffer.keys, i + 1, sdir, nearby);
        return Err(KeyError(tmc));
      }
      var pemsDir := PemsDir(sdir.m[tmc]);
      if pemsDir.Err? {
        StationPairsStops(buffer.keys, i + 1, sdir, nearby);
        return Err(pemsDir.error);
      }
      var stns := CursorIds(nearby(tmc), pemsDir.value);
      FromPairsSnoc(StationPairs(buffer.keys[..i], sdir, nearby).value, tmc, stns);
      lists := Put(lists, tmc, stns);
      i := i + 1;
    }
    assert buffer.keys[..i] == buffer.keys;
    r := Ok(lists);
  }

  /** Every buffered TMC gets an entry, in buffer order, holding its own station list (possibly empty). */
  lemma StationListsEntries(buffer: Dict<string, string>, sdir: Dict<string, string>, nearby: string -> seq<Station>)
    requires Valid(buffer) && StationPairs(buffer.keys, sdir, nearby).Ok?
    ensures var lists := FromPairs(StationPairs(buffer.keys, sdir, nearby).value);
      && Valid(lists)
      && lists.keys == buffer.keys
      && forall k :: k in buffer.m ==> k in lists.m && TmcStations(k, sdir, nearby).Ok? && lists.m[k] == TmcStations(k, sdir, nearby).value
  {
    var ps := StationPairs(buffer.keys, sdir, nearby).value;
    assert KeysOf(ps) == buffer.keys;
    FromPairsValid(ps);
    FromPairsDistinctKeys(ps);
    forall k | k in buffer.m
      ensures k in FromPairs(ps).m && TmcStations(k, sdir, nearby).Ok? && FromPairs(ps).m[k] == TmcStations(k, sdir, nearby).value
    {
      var i :| 0 <= i < |buffer.keys| && buffer.keys[i] == k;
      FromPairsDistinctValues(ps, i);
    }
  }

  // ---------------------------------------------------------------- the reverse dictionary

  /** `(stn, tmc)` for each station of one TMC's list, in list order. */
  function Owned(stns: seq<int>, tmc: string): (r: seq<(int, string)>)
    ensures |r| == |stns| && forall j :: 0 <= j < |stns| ==> r[j] == (stns[j], tmc)
  {
    seq(|stns|, j requires 0 <= j < |stns| => (stns[j], tmc))
  }

  /** The assignments `dict_tmc_pems[stn] = tmc_code`, in the order the nested loops make them. */
  function Invert(items: seq<(string, seq<int>)>): seq<(int, string)>
  {
    if items == [] then []
    else
      var n := |items| - 1;
      Invert(items[..n]) + Owned(items[n].1, items[n].0)
  }

  /** A station/TMC assignment is made exactly when the station is in that TMC's list. */
  lemma {:induction false} InvertMembers(items: seq<(string, seq<int>)>, s: int, t: string)
    ensures (s, t) in Invert(items) <==> exists i :: 0 <= i < |items| && items[i].0 == t && s in items[i].1
    decreases |items|
  {
    if items != [] {
      var n := |items| - 1;
      var pre := items[..n];
      InvertMembers(pre, s, t);
      assert forall i :: 0 <= i < n ==> pre[i] == items[i];
      if s in items[n].1 && items[n].0 == t {
        var j :| 0 <= j < |items[n].1| && items[n].1[j] == s;
        assert Owned(items[n].1, items[n].0)[j] == (s, t);
      }
      if (s, t) in Owned(items[n].1, items[n].0) {
        var j :| 0 <= j < |items[n].1| && Owned(items[n].1, items[n].0)[j] == (s, t);
        assert items[n].1[j] == s;
      }
    }
  }

  /** The nested loops that fill `dict_tmc_pems` from the TMC -> stations dictionary. */
  method ReverseDict(lists: Dict<string, seq<int>>) returns (rev: Dict<int, string>)
    requires Valid(lists)
    ensures rev == FromPairs(Invert(Items(lists)))
  {
    ghost var items := Items(lists);
    rev := Empty();
    var i := 0;
    while i < |lists.keys|
      invariant 0 <= i <= |lists.keys|
      invariant rev == FromPairs(Invert(items[..i]))
    {
      var tmc := lists.keys[i];
      var stns := lists.m[tmc];
      ghost var done := Invert(items[..i]);
      var j := 0;
      assert done + Owned(stns[..0], tmc) == done;
      while j < |stns|
        invariant 0 <= j <= |stns|
        invariant rev == FromPairs(done + Owned(stns[..j], tmc))
      {
        assert Owned(stns[..j + 1], tmc) == Owned(stns[..j], tmc) + [(stns[j], tmc)];
        assert done + Owned(stns[..j + 1], tmc) == (done + Owned(stns[..j], tmc)) + [(stns[j], tmc)];
        FromPairsSnoc(done + Owned(stns[..j], tmc), stns[j], tmc);
        rev := Put(rev, stns[j], tmc);
        j := j + 1;
      }
      assert stns[..j] == stns;
      assert items[..i + 1][..i] == items[..i];
      assert items[i] == (tmc, stns);
      i := i + 1;
    }
    assert items[..i] == items;
  }

  /** The stations of the reverse dictionary are exactly those in some TMC's list. */
  lemma ReverseKeys(lists: Dict<string, seq<int>>, s: int)
    requires Valid(lists)
    ensures s in FromPairs(Invert(Items(lists))).m <==> exists t :: t in lists.m && s in lists.m[t]
  {
    var items := Items(lists);
    var rev := FromPairs(Invert(items));
    if s in rev.m {
      FromPairsValueFrom(Invert(items), s);
      InvertMembers(items, s, rev.m[s]);
    }
    if exists t :: t in lists.m && s in lists.m[t] {
      var t :| t in lists.m && s in lists.m[t];
      var i :| 0 <= i < |lists.keys| && lists.keys[i] == t;
      InvertMembers(items, s, t);
      FromPairsHas(Invert(items), s, t);
    }
  }

  /** Each station is mapped to a TMC whose list contains it. */
  lemma ReverseOwner(lists: Dict<string, seq<int>>, s: int)
    requires Valid(lists)
    requires s in FromPairs(Invert(Items(lists))).m
    ensures var t := FromPairs(Invert(Items(lists))).m[s]; t in lists.m && s in lists.m[t]
  {
    var items := Items(lists);
    FromPairsValueFrom(Invert(items), s);
    InvertMembers(items, s, FromPairs(Invert(items)).m[s]);
  }

  /** Over the assignments of `items`, a station goes to the last TMC whose list holds it. */
  lemma {:induction false} InvertLastWins(items: seq<(string, seq<int>)>, i: nat, s: int)
    requires i < |items| && s in items[i].1
    requires forall j :: i < j < |items| ==> s !in items[j].1
    ensures s in FromPairs(Invert(items)).m && FromPairs(Invert(items)).m[s] == items[i].0
    decreases |items|
  {
    var n := |items| - 1;
    var pre := items[..n];
    var own := Owned(items[n].1, items[n].0);
    FromPairsAppend(Invert(pre), own);
    if i == n {
      var k :| 0 <= k < |items[n].1| && items[n].1[k] == s;
      assert own[k].0 == s;
      PutAllSame(FromPairs(Invert(pre)), own, s, items[n].0);
    } else {
      assert pre[i] == items[i];
      assert forall j :: i < j < n ==> pre[j] == items[j];
      InvertLastWins(pre, i, s);
      PutAllUntouched(FromPairs(Invert(pre)), own, s);
    }
  }

  /** A station in several lists goes to the last TMC iterated whose list holds it. */
  lemma ReverseLastWins(lists: Dict<string, seq<int>>, i: nat, s: int)
    requires Valid(lists) && i < |lists.keys|
    requires s in lists.m[lists.keys[i]]
    requires forall j :: i < j < |lists.keys| ==> s !in lists.m[lists.keys[j]]
    ensures var rev := FromPairs(Invert(Items(lists)));
      s in rev.m && rev.m[s] == lists.keys[i]
  {
    InvertLastWins(Items(lists), i, s);
  }

  // ---------------------------------------------------------------- tmc2pems

  /** What `tmc2pems` returns, given the TMC -> signed direction dictionary, the buffered TMCs and the location selection. */
  function Tmc2PemsResult(sdir: Dict<string, string>, buffer: Dict<string, string>, nearby: string -> seq<Station>): Result<Dict<int, string>, PyError>
  {
    match StationPairs(buffer.keys, sdir, nearby)
    case Err(e) => Err(e)
    case Ok(ps) => Ok(FromPairs(Invert(ps)))
  }

  /**
   * `tmc2pems(fc_tmcs_in, csv_tmcs_in, csv_pems_stns, output_dir)` with the GIS steps as inputs:
   * `specRows` are the (tmc, direction) rows of the specification CSV and `bufferRows` the
   * (Tmc, RoadNumber) rows of the buffer cursor.
   */
  method Tmc2Pems(specRows: seq<(string, string)>, bufferRows: seq<(string, string)>, nearby: string -> seq<Station>)
    returns (r: Result<Dict<int, string>, PyError>)
    ensures r == Tmc2PemsResult(FromPairs(specRows), FromPairs(bufferRows), nearby)
  {
    var sdir := BuildDict(specRows);
    var buffer := BuildDict(bufferRows);
    FromPairsValid(bufferRows);
    var lists := StationLists(buffer, sdir, nearby);
    if lists.Err? {
      return Err(lists.error);
    }
    ListsOfRun(sdir, buffer, nearby);
    var rev := ReverseDict(lists.value);
    r := Ok(rev);
  }

  /** The script raises exactly when some buffered TMC has no row in the specification CSV or an unknown signed direction. */
  lemma Tmc2PemsFails(sdir: Dict<string, string>, buffer: Dict<string, string>, nearby: string -> seq<Station>)
    requires Valid(buffer)
    ensures Tmc2PemsResult(sdir, buffer, nearby).Err? <==>
      exists k :: k in buffer.m && (k !in sdir.m || sdir.m[k] !in SignedDirections)
  {
    StationPairsFails(buffer.keys, sdir, nearby);
    if exists k :: k in buffer.keys && (k !in sdir.m || sdir.m[k] !in SignedDirections) {
      var k :| k in buffer.keys && (k !in sdir.m || sdir.m[k] !in SignedDirections);
      assert k in buffer.m;
    }
  }

  /** The reverse step's input: the TMC -> stations dictionary of a successful run. */
  lemma ListsOfRun(sdir: Dict<string, string>, buffer: Dict<string, string>, nearby: string -> seq<Station>)
    requires Valid(buffer) && StationPairs(buffer.keys, sdir, nearby).Ok?
    ensures var ps := StationPairs(buffer.keys, sdir, nearby).value;
      && Valid(FromPairs(ps))
      && Items(FromPairs(ps)) == ps
      && FromPairs(ps).keys == buffer.keys
      && forall k :: k in buffer.m ==> TmcStations(k, sdir, nearby).Ok? && FromPairs(ps).m[k] == TmcStations(k, sdir, nearby).value
  {
    var ps := StationPairs(buffer.keys, sdir, nearby).value;
    StationListsEntries(buffer, sdir, nearby);
    assert KeysOf(ps) == buffer.keys;
    ItemsFromPairs(ps);
  }

  /** On success, the stations returned are exactly those listed for some buffered TMC. */
  lemma Tmc2PemsStations(sdir: Dict<string, string>, buffer: Dict<string, string>, nearby: string -> seq<Station>, s: int)
    requires Valid(buffer) && Tmc2PemsResult(sdir, buffer, nearby).Ok?
    ensures s in Tmc2PemsResult(sdir, buffer, nearby).value.m <==>
      exists t :: t in buffer.m && TmcStations(t, sdir, nearby).Ok? && s in TmcStations(t, sdir, nearby).value
  {
    var ps := StationPairs(buffer.keys, sdir, nearby).value;
    ListsOfRun(sdir, buffer, nearby);
    ReverseKeys(FromPairs(ps), s);
  }

  /** On success, each station is tagged with a buffered TMC whose own station list holds it. */
  lemma Tmc2PemsOwner(sdir: Dict<string, string>, buffer: Dict<string, string>, nearby: string -> seq<Station>, s: int)
    requires Valid(buffer) && Tmc2PemsResult(sdir, buffer, nearby).Ok?
    requires s in Tmc2PemsResult(sdir, buffer, nearby).value.m
    ensures var t := Tmc2PemsResult(sdir, buffer, nearby).value.m[s];
      t in buffer.m && TmcStations(t, sdir, nearby).Ok? && s in TmcStations(t, sdir, nearby).value
  {
    var ps := StationPairs(buffer.keys, sdir, nearby).value;
    ListsOfRun(sdir, buffer, nearby);
    ReverseOwner(FromPairs(ps), s);
  }

  /** The last-wins rule, for a TMC -> stations dictionary that lists each buffered TMC's stations. */
  lemma ListsLastWins(lists: Dict<string, seq<int>>, sdir: Dict<string, string>, buffer: Dict<string, string>, nearby: string -> seq<Station>, i: nat, s: int)
    requires Valid(buffer) && Valid(lists) && lists.keys == buffer.keys
    requires forall k :: k in buffer.m ==> TmcStations(k, sdir, nearby).Ok? && lists.m[k] == TmcStations(k, sdir, nearby).value
    requires i < |buffer.keys|
    requires TmcStations(buffer.keys[i], sdir, nearby).Ok? && s in TmcStations(buffer.keys[i], sdir, nearby).value
    requires forall j :: i < j < |buffer.keys| && TmcStations(buffer.keys[j], sdir, nearby).Ok? ==>
      s !in TmcStations(buffer.keys[j], sdir, nearby).value
    ensures var rev := FromPairs(Invert(Items(lists)));
      s in rev.m && rev.m[s] == buffer.keys[i]
  {
    forall j | i < j < |lists.keys|
      ensures s !in lists.m[lists.keys[j]]
    {
      assert lists.keys[j] in buffer.m;
    }
    assert lists.keys[i] in buffer.m;
    ReverseLastWins(lists, i, s);
  }

  /** On success, a station listed for several TMCs is tagged with the last of them in buffer order. */
  lemma Tmc2PemsLastWins(sdir: Dict<string, string>, buffer: Dict<string, string>, nearby: string -> seq<Station>, i: nat, s: int)
    requires Valid(buffer) && Tmc2PemsResult(sdir, buffer, nearby).Ok?
    requires i < |buffer.keys|
    requires TmcStations(buffer.keys[i], sdir, nearby).Ok? && s in TmcStations(buffer.keys[i], sdir, nearby).value
    requires forall j :: i < j < |buffer.keys| && TmcStations(buffer.keys[j], sdir, nearby).Ok? ==>
      s !in TmcStations(buffer.keys[j], sdir, nearby).value
    ensures var rev := Tmc2PemsResult(sdir, buffer, nearby).value;
      s in rev.m && rev.m[s] == buffer.keys[i]
  {
    var ps := StationPairs(buffer.keys, sdir, nearby).value;
    ListsOfRun(sdir, buffer, nearby);
    ListsLastWins(FromPairs(ps), sdir, buffer, nearby, i, s);
  }
}
