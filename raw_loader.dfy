/**
 * Naming in the raw NPMRDS loader: reading a parameter cell, the SQL Server table and CSV
 * names of one travel-time download, and the list of downloads a data set loads.
 */
module RawLoader {
  import opened Wrappers
  import opened Strings

  // ---------------------------------------------------------------- ParamCSV.get_attr

  /** A cell of the parameter CSV's value column: text, or NaN when left blank. */
  datatype ParamCell = Text(s: string) | Blank

  /** `get_attr`: the value stored under an index name, None for a blank cell, KeyError for a missing index. */
  function GetAttr(params: map<string, ParamCell>, idx: string): (r: Result<Option<string>, PyError>)
    ensures r.Err? <==> idx !in params
    ensures r.Err? ==> r.error == KeyError(idx)
    ensures r == Ok(None) <==> idx in params && params[idx] == Blank
    ensures r.Ok? && r.value.Some? ==> params[idx] == Text(r.value.value)
  {
    if idx !in params then Err(KeyError(idx))
    else match params[idx]
      case Blank => Ok(None)
      case Text(s) => Ok(Some(s))
  }

  // ---------------------------------------------------------------- RawTTCSV naming

  /** `vehtype_dict` */
  const VehTypes: map<string, string> := map["all" := "paxtruck_comb", "passenger" := "paxveh", "truck" := "trucks"]

  /** `vehtype_dict[vehtype]` */
  function VehTypeName(vehtype: string): (r: Result<string, PyError>)
    ensures r.Err? <==> vehtype !in {"all", "passenger", "truck"}
    ensures r.Err? ==> r.error == KeyError(vehtype)
  {
    if vehtype in VehTypes then Ok(VehTypes[vehtype]) else Err(KeyError(vehtype))
  }

  /** The three vehicle types name three different tables. */
  lemma VehTypeNamesDistinct(a: string, b: string)
    requires VehTypeName(a).Ok? && VehTypeName(b).Ok? && a != b
    ensures VehTypeName(a).value != VehTypeName(b).value
  {
  }

  /** The extra table-name text: "" when there is none, else "_" and its first ten characters at most. */
  function ExtraSuffix(addl: string): (r: string)
    ensures |r| <= 11
    ensures r == "" <==> addl == ""
    ensures r != "" ==> r[0] == '_' && |r| - 1 == (if |addl| > 10 then 10 else |addl|)
    ensures r != "" ==> r[1..] == addl[..|r| - 1]
  {
    if |addl| > 0 then
      var info := if |addl| > 10 then addl[..10] else addl;
      "_" + info
    else ""
  }

  /** Separators of a Windows path, where the loader runs. */
  predicate IsSep(c: char)
  {
    c == '/' || c == '\\'
  }

  /** Where the last component of a path starts: after its last separator, and never inside a drive "X:". */
  function BaseStart(path: string): (i: nat)
    ensures i <= |path|
    ensures forall k :: i <= k < |path| ==> !IsSep(path[k])
    ensures i > 0 ==> IsSep(path[i - 1]) || (i == 2 && path[1] == ':')
  {
    var j := LastSepEnd(path);
    if |path| >= 2 && path[1] == ':' && j < 2 then 2 else j
  }

  function LastSepEnd(path: string): (i: nat)
    ensures i <= |path|
    ensures forall k :: i <= k < |path| ==> !IsSep(path[k])
    ensures i > 0 ==> IsSep(path[i - 1])
  {
    if path == [] then 0
    else if IsSep(path[|path| - 1]) then |path|
    else LastSepEnd(path[..|path| - 1])
  }

  /** `os.path.basename` (Windows flavour): the path with everything up to its last separator removed. */
  function BaseName(path: string): (r: string)
    ensures |r| <= |path| && path == path[..|path| - |r|] + r
    ensures forall k :: 0 <= k < |r| ==> !IsSep(r[k])
    ensures |r| < |path| ==> IsSep(path[|path| - |r| - 1]) || (|path| - |r| == 2 && path[1] == ':')
    ensures |path| >= 2 && path[1] == ':' ==> |r| <= |path| - 2
  {
    path[BaseStart(path)..]
  }

  /**
   * `os.path.join(dir, name)` (Windows flavour) for a name that has no drive and no leading
   * separator: the name goes inside the directory, with a backslash between them exactly when
   * the directory is non-empty, does not end in a separator and is not a bare drive "X:".
   */
  function JoinPath(dir: string, name: string): (r: string)
    ensures |dir| + |name| <= |r| <= |dir| + |name| + 1
    ensures r[..|dir|] == dir && r[|r| - |name|..] == name
    ensures |r| == |dir| + |name| + 1 <==> dir != [] && !IsSep(dir[|dir| - 1]) && !(|dir| == 2 && dir[1] == ':')
    ensures |r| == |dir| + |name| + 1 ==> r[|dir|] == '\\'
  {
    if dir == [] || IsSep(dir[|dir| - 1]) || (|dir| == 2 && dir[1] == ':') then dir + name
    else dir + "\\" + name
  }

  lemma {:induction false} LastSepEndAppend(a: string, b: string)
    requires forall k :: 0 <= k < |b| ==> !IsSep(b[k])
    ensures LastSepEnd(a + b) == LastSepEnd(a)
  {
    if b == [] {
      assert a + b == a;
    } else {
      var b' := b[..|b| - 1];
      assert (a + b)[..|a + b| - 1] == a + b';
      LastSepEndAppend(a, b');
    }
  }

  /** With no drive in the way, the last component starts where the last separator ends. */
  lemma BaseNameAfterSep(path: string, i: nat)
    requires LastSepEnd(path) == i
    requires i >= 2 || |path| < 2 || path[1] != ':'
    ensures i <= |path| && BaseName(path) == path[i..]
  {
    assert BaseStart(path) == i;
  }

  /** A drive "X:" with no separator after it is cut off whole. */
  lemma BaseNameAfterDrive(path: string)
    requires |path| >= 2 && path[1] == ':' && LastSepEnd(path) < 2
    ensures BaseName(path) == path[2..]
  {
    assert BaseStart(path) == 2;
  }

  lemma JoinNoDir(name: string)
    requires forall k :: 0 <= k < |name| ==> !IsSep(name[k])
    requires |name| < 2 || name[1] != ':'
    ensures BaseName(JoinPath([], name)) == name
  {
    assert JoinPath([], name) == name;
    LastSepEndAppend([], name);
    assert [] + name == name;
    BaseNameAfterSep(name, 0);
  }

  lemma JoinAfterSep(dir: string, name: string)
    requires forall k :: 0 <= k < |name| ==> !IsSep(name[k])
    requires |dir| > 0 && IsSep(dir[|dir| - 1])
    requires |dir| == 1 && |name| > 0 ==> name[0] != ':'
    ensures BaseName(dir + name) == name
  {
    var path := dir + name;
    assert LastSepEnd(dir) == |dir|;
    LastSepEndAppend(dir, name);
    assert |dir| == 1 && |name| > 0 ==> path[1] == name[0];
    BaseNameAfterSep(path, |dir|);
    assert path[|dir|..] == name;
  }

  lemma JoinAfterDrive(dir: string, name: string)
    requires forall k :: 0 <= k < |name| ==> !IsSep(name[k])
    requires |dir| == 2 && dir[1] == ':' && !IsSep(dir[1])
    ensures BaseName(dir + name) == name
  {
    var path := dir + name;
    LastSepEndAppend(dir, name);
    assert LastSepEnd(dir) <= 1 by {
      assert LastSepEnd(dir) == LastSepEnd(dir[..1]);
    }
    assert path[1] == ':';
    BaseNameAfterDrive(path);
    assert path[2..] == name;
  }

  /** The last component of a directory joined with a plain file name is that file name. */
  lemma BaseNameJoin(dir: string, name: string)
    requires forall k :: 0 <= k < |name| ==> !IsSep(name[k])
    requires dir == [] ==> |name| < 2 || name[1] != ':'
    requires |dir| == 1 && IsSep(dir[0]) && |name| > 0 ==> name[0] != ':'
    ensures BaseName(JoinPath(dir, name)) == name
  {
    if dir == [] {
      JoinNoDir(name);
    } else if IsSep(dir[|dir| - 1]) {
      JoinAfterSep(dir, name);
    } else if |dir| == 2 && dir[1] == ':' {
      JoinAfterDrive(dir, name);
    } else {
      var d := dir + "\\";
      assert JoinPath(dir, name) == d + name;
      JoinAfterSep(d, name);
    }
  }

  /** `csv_path` names `csv_name` as its last component. */
  lemma CsvPathNamesCsv(dir: string)
    ensures BaseName(JoinPath(dir, BaseName(dir) + ".csv")) == BaseName(dir) + ".csv"
  {
    var base := BaseName(dir);
    var name := base + ".csv";
    assert forall k :: 0 <= k < |name| ==> !IsSep(name[k]) by {
      forall k | 0 <= k < |name|
        ensures !IsSep(name[k])
      {
        if k < |base| {
          assert name[k] == base[k];
        } else {
          assert name[k] == ".csv"[k - |base|];
        }
      }
    }
    if dir == [] {
      assert name == ".csv";
    }
    if |dir| == 1 && IsSep(dir[0]) {
      assert LastSepEnd(dir) == 1;
      BaseNameAfterSep(dir, 1);
      assert name == ".csv";
    }
    BaseNameJoin(dir, name);
  }

  /** `npmrds_{year}_{extent}_{vehicle table}{suffix}` */
  function TableName(year: int, extent: string, vehTbl: string, suffix: string): string
  {
    "npmrds_" + IntToString(year) + "_" + extent + "_" + vehTbl + suffix
  }

  /** The attributes `RawTTCSV.__init__` sets. */
  datatype RawTTCSV = RawTTCSV(
    dataDir: string,
    csvName: string,
    csvPath: string,
    vehtypeTblname: string,
    tableYear: int,
    tmcExtent: string,
    otherTblnameInfo: string,
    sqlServerTableName: string)

  /** `RawTTCSV(data_dir, data_year, vehtype, tmc_extent, tbl_name_addl)`: KeyError on an unknown vehicle type. */
  function NewRawTTCSV(dataDir: string, dataYear: int, vehtype: string, tmcExtent: string, tblNameAddl: string): (r: Result<RawTTCSV, PyError>)
    ensures r.Err? <==> vehtype !in VehTypes
    ensures r.Err? ==> r.error == KeyError(vehtype)
    ensures r.Ok? ==> r.value.csvName == BaseName(dataDir) + ".csv" && r.value.csvPath == JoinPath(dataDir, r.value.csvName)
    ensures r.Ok? ==> r.value.sqlServerTableName == TableName(dataYear, tmcExtent, VehTypes[vehtype], ExtraSuffix(tblNameAddl))
  {
    var csvName := BaseName(dataDir) + ".csv";
    var csvPath := JoinPath(dataDir, csvName);
    match VehTypeName(vehtype)
    case Err(e) => Err(e)
    case Ok(vehTbl) =>
      var other := ExtraSuffix(tblNameAddl);
      Ok(RawTTCSV(dataDir, csvName, csvPath, vehTbl, dataYear, tmcExtent, other, TableName(dataYear, tmcExtent, vehTbl, other)))
  }

  /** A digit string followed by "_" is told apart from another at the "_". */
  lemma DigitsThenUnderscore(a: string, b: string, x: string, y: string)
    requires forall k :: 0 <= k < |a| ==> IsDigit(a[k])
    requires forall k :: 0 <= k < |b| ==> IsDigit(b[k])
    requires a + "_" + x == b + "_" + y
    ensures a == b && x == y
  {
    var s := a + "_" + x;
    assert forall k :: 0 <= k < |a| ==> s[k] == a[k];
    assert forall k :: 0 <= k < |b| ==> s[k] == b[k];
    assert s[|a|] == '_' && s[|b|] == '_';
    assert |a| == |b|;
    assert a == s[..|a|] && b == s[..|b|];
    assert x == s[|a| + 1..] && y == (b + "_" + y)[|b| + 1..];
  }

  /** Downloads of different years never share a table name. */
  lemma TableNameYearInjective(y1: nat, y2: nat, e1: string, e2: string, v1: string, v2: string, s1: string, s2: string)
    requires y1 != y2
    ensures TableName(y1, e1, v1, s1) != TableName(y2, e2, v2, s2)
  {
    var p := "npmrds_";
    var a, b := IntToString(y1), IntToString(y2);
    var x, y := e1 + "_" + v1 + s1, e2 + "_" + v2 + s2;
    assert TableName(y1, e1, v1, s1) == p + (a + "_" + x);
    assert TableName(y2, e2, v2, s2) == p + (b + "_" + y);
    if TableName(y1, e1, v1, s1) == TableName(y2, e2, v2, s2) {
      assert a + "_" + x == (p + (a + "_" + x))[|p|..];
      assert b + "_" + y == (p + (b + "_" + y))[|p|..];
      DigitsThenUnderscore(a, b, x, y);
      NatToStringInjective(y1, y2);
    }
  }

  /** Within one year, extent and suffix, each vehicle type loads into a table of its own. */
  lemma TableNameVehInjective(year: int, extent: string, v1: string, v2: string, suffix: string)
    requires TableName(year, extent, v1, suffix) == TableName(year, extent, v2, suffix)
    ensures v1 == v2
  {
    var p := "npmrds_" + IntToString(year) + "_" + extent + "_";
    assert TableName(year, extent, v1, suffix) == p + v1 + suffix;
    assert TableName(year, extent, v2, suffix) == p + v2 + suffix;
    assert v1 == (p + v1 + suffix)[|p|..|p| + |v1|];
    assert v2 == (p + v2 + suffix)[|p|..|p| + |v2|];
  }

  // ---------------------------------------------------------------- DataSet

  /** Python truthiness of a directory argument: given and not empty. */
  predicate Truthy(d: Option<string>)
  {
    d.Some? && d.value != ""
  }

  predicate AnyDir(truckDir: Option<string>, paxDir: Option<string>, combDir: Option<string>)
  {
    Truthy(truckDir) || Truthy(paxDir) || Truthy(combDir)
  }

  /** A download with no extra name text, for the vehicle table `vehTbl`. */
  function Download(dir: string, dataYear: int, vehTbl: string, tmcExtent: string): (r: RawTTCSV)
    ensures r.dataDir == dir && r.vehtypeTblname == vehTbl && r.otherTblnameInfo == ""
    ensures r.sqlServerTableName == TableName(dataYear, tmcExtent, vehTbl, "")
  {
    var csvName := BaseName(dir) + ".csv";
    RawTTCSV(dir, csvName, JoinPath(dir, csvName), vehTbl, dataYear, tmcExtent, "", TableName(dataYear, tmcExtent, vehTbl, ""))
  }

  /** `RawTTCSV(dir, year, vehtype, extent, '')` for a known vehicle type is that type's download. */
  lemma NewRawTTCSVDownload(dir: string, dataYear: int, vehtype: string, tmcExtent: string)
    requires vehtype in VehTypes
    ensures NewRawTTCSV(dir, dataYear, vehtype, tmcExtent, "") == Ok(Download(dir, dataYear, VehTypes[vehtype], tmcExtent))
  {
  }

  /** The list entry for one directory argument: none when it is falsy. */
  function Entry(dir: Option<string>, dataYear: int, vehTbl: string, tmcExtent: string): (r: seq<RawTTCSV>)
    ensures |r| == if Truthy(dir) then 1 else 0
    ensures forall i :: 0 <= i < |r| ==> Some(r[i].dataDir) == dir && r[i].vehtypeTblname == vehTbl
    ensures forall i :: 0 <= i < |r| ==> r[i].sqlServerTableName == TableName(dataYear, tmcExtent, vehTbl, "")
  {
    if Truthy(dir) then [Download(dir.value, dataYear, vehTbl, tmcExtent)] else []
  }

  /** `data_dir_list`: truck, passenger, combined, each only when its directory is given. */
  function DirList(dataYear: int, truckDir: Option<string>, paxDir: Option<string>, combDir: Option<string>, tmcExtent: string): seq<RawTTCSV>
  {
    Entry(truckDir, dataYear, "trucks", tmcExtent) + Entry(paxDir, dataYear, "paxveh", tmcExtent) + Entry(combDir, dataYear, "paxtruck_comb", tmcExtent)
  }

  lemma VehTablesDiffer()
    ensures "trucks" != "paxveh" && "trucks" != "paxtruck_comb" && "paxveh" != "paxtruck_comb"
  {
    assert "trucks"[0] != "paxveh"[0];
    assert "trucks"[0] != "paxtruck_comb"[0];
    assert |"paxveh"| != |"paxtruck_comb"|;
  }

  /** Order of a vehicle table in the list. */
  function Rank(vehTbl: string): nat
  {
    if vehTbl == "trucks" then 0 else if vehTbl == "paxveh" then 1 else 2
  }

  /** Three lists of at most one download each, of the trucks, passenger and combined tables, concatenated. */
  predicate Tagged(t: seq<RawTTCSV>, p: seq<RawTTCSV>, c: seq<RawTTCSV>)
  {
    && |t| <= 1 && |p| <= 1 && |c| <= 1
    && (forall i :: 0 <= i < |t| ==> t[i].vehtypeTblname == "trucks")
    && (forall i :: 0 <= i < |p| ==> p[i].vehtypeTblname == "paxveh")
    && (forall i :: 0 <= i < |c| ==> c[i].vehtypeTblname == "paxtruck_comb")
  }

  lemma TaggedConcat(t: seq<RawTTCSV>, p: seq<RawTTCSV>, c: seq<RawTTCSV>)
    requires Tagged(t, p, c)
    ensures var l := t + p + c;
      forall i, j :: 0 <= i < j < |l| ==> Rank(l[i].vehtypeTblname) < Rank(l[j].vehtypeTblname)
  {
    var l := t + p + c;
    VehTablesDiffer();
    assert forall i :: 0 <= i < |l| ==>
      if i < |t| then l[i] == t[i] else if i < |t| + |p| then l[i] == p[i - |t|] else l[i] == c[i - |t| - |p|];
    assert forall i :: 0 <= i < |l| ==> Rank(l[i].vehtypeTblname) == if i < |t| then 0 else if i < |t| + |p| then 1 else 2;
  }

  /** One entry per directory given; the list is empty exactly when no directory is given. */
  lemma DirListCount(dataYear: int, truckDir: Option<string>, paxDir: Option<string>, combDir: Option<string>, tmcExtent: string)
    ensures var l := DirList(dataYear, truckDir, paxDir, combDir, tmcExtent);
      && |l| == (if Truthy(truckDir) then 1 else 0) + (if Truthy(paxDir) then 1 else 0) + (if Truthy(combDir) then 1 else 0)
      && (|l| == 0 <==> !AnyDir(truckDir, paxDir, combDir))
  {
  }

  /** The entries come in the order truck, passenger, combined. */
  lemma DirListOrder(dataYear: int, truckDir: Option<string>, paxDir: Option<string>, combDir: Option<string>, tmcExtent: string)
    ensures var l := DirList(dataYear, truckDir, paxDir, combDir, tmcExtent);
      forall i, j :: 0 <= i < j < |l| ==> Rank(l[i].vehtypeTblname) < Rank(l[j].vehtypeTblname)
  {
    var t := Entry(truckDir, dataYear, "trucks", tmcExtent);
    var p := Entry(paxDir, dataYear, "paxveh", tmcExtent);
    var c := Entry(combDir, dataYear, "paxtruck_comb", tmcExtent);
    assert Tagged(t, p, c);
    TaggedConcat(t, p, c);
  }

  lemma TaggedLookup(t: seq<RawTTCSV>, p: seq<RawTTCSV>, c: seq<RawTTCSV>, i: nat)
    requires Tagged(t, p, c) && i < |t + p + c|
    ensures (t + p + c)[i].vehtypeTblname == "trucks" ==> (t + p + c)[i] == t[0]
    ensures (t + p + c)[i].vehtypeTblname == "paxveh" ==> (t + p + c)[i] == p[0]
    ensures (t + p + c)[i].vehtypeTblname == "paxtruck_comb" ==> (t + p + c)[i] == c[0]
  {
    VehTablesDiffer();
    if i < |t| {
      assert (t + p + c)[i] == t[i];
    } else if i < |t| + |p| {
      assert (t + p + c)[i] == p[i - |t|];
    } else {
      assert (t + p + c)[i] == c[i - |t| - |p|];
    }
  }

  /** In three tagged lists whose entries carry one directory each, every entry carries its table's directory. */
  lemma TaggedDirs(t: seq<RawTTCSV>, p: seq<RawTTCSV>, c: seq<RawTTCSV>, dt: Option<string>, dp: Option<string>, dc: Option<string>)
    requires Tagged(t, p, c)
    requires (forall i :: 0 <= i < |t| ==> Some(t[i].dataDir) == dt) && (forall i :: 0 <= i < |p| ==> Some(p[i].dataDir) == dp)
    requires forall i :: 0 <= i < |c| ==> Some(c[i].dataDir) == dc
    ensures var l := t + p + c;
      && (forall i :: 0 <= i < |l| && l[i].vehtypeTblname == "trucks" ==> Some(l[i].dataDir) == dt)
      && (forall i :: 0 <= i < |l| && l[i].vehtypeTblname == "paxveh" ==> Some(l[i].dataDir) == dp)
      && (forall i :: 0 <= i < |l| && l[i].vehtypeTblname == "paxtruck_comb" ==> Some(l[i].dataDir) == dc)
  {
    var l := t + p + c;
    forall i | 0 <= i < |l|
      ensures l[i].vehtypeTblname == "trucks" ==> Some(l[i].dataDir) == dt
      ensures l[i].vehtypeTblname == "paxveh" ==> Some(l[i].dataDir) == dp
      ensures l[i].vehtypeTblname == "paxtruck_comb" ==> Some(l[i].dataDir) == dc
    {
      TaggedLookup(t, p, c, i);
    }
  }

  /** Each entry carries the directory given for its vehicle type. */
  lemma DirListDirs(dataYear: int, truckDir: Option<string>, paxDir: Option<string>, combDir: Option<string>, tmcExtent: string)
    ensures var l := DirList(dataYear, truckDir, paxDir, combDir, tmcExtent);
      && (forall i :: 0 <= i < |l| && l[i].vehtypeTblname == "trucks" ==> Some(l[i].dataDir) == truckDir)
      && (forall i :: 0 <= i < |l| && l[i].vehtypeTblname == "paxveh" ==> Some(l[i].dataDir) == paxDir)
      && (forall i :: 0 <= i < |l| && l[i].vehtypeTblname == "paxtruck_comb" ==> Some(l[i].dataDir) == combDir)
  {
    var t := Entry(truckDir, dataYear, "trucks", tmcExtent);
    var p := Entry(paxDir, dataYear, "paxveh", tmcExtent);
    var c := Entry(combDir, dataYear, "paxtruck_comb", tmcExtent);
    assert Tagged(t, p, c);
    TaggedDirs(t, p, c, truckDir, paxDir, combDir);
  }

  /** Every entry loads into `npmrds_{year}_{extent}_{its vehicle table}`. */
  predicate NamedFor(l: seq<RawTTCSV>, dataYear: int, tmcExtent: string)
  {
    forall i :: 0 <= i < |l| ==> l[i].sqlServerTableName == TableName(dataYear, tmcExtent, l[i].vehtypeTblname, "")
  }

  lemma NamedForConcat(a: seq<RawTTCSV>, b: seq<RawTTCSV>, dataYear: int, tmcExtent: string)
    requires NamedFor(a, dataYear, tmcExtent) && NamedFor(b, dataYear, tmcExtent)
    ensures NamedFor(a + b, dataYear, tmcExtent)
  {
    forall i | 0 <= i < |a + b|
      ensures (a + b)[i].sqlServerTableName == TableName(dataYear, tmcExtent, (a + b)[i].vehtypeTblname, "")
    {
      if i < |a| {
        assert (a + b)[i] == a[i];
      } else {
        assert (a + b)[i] == b[i - |a|];
      }
    }
  }

  /** Each entry loads into `npmrds_{year}_{extent}_{its vehicle table}`. */
  lemma DirListTables(dataYear: int, truckDir: Option<string>, paxDir: Option<string>, combDir: Option<string>, tmcExtent: string)
    ensures var l := DirList(dataYear, truckDir, paxDir, combDir, tmcExtent);
      forall i :: 0 <= i < |l| ==> l[i].sqlServerTableName == TableName(dataYear, tmcExtent, l[i].vehtypeTblname, "")
  {
    var t := Entry(truckDir, dataYear, "trucks", tmcExtent);
    var p := Entry(paxDir, dataYear, "paxveh", tmcExtent);
    var c := Entry(combDir, dataYear, "paxtruck_comb", tmcExtent);
    assert NamedFor(t, dataYear, tmcExtent) && NamedFor(p, dataYear, tmcExtent) && NamedFor(c, dataYear, tmcExtent);
    NamedForConcat(t, p, dataYear, tmcExtent);
    NamedForConcat(t + p, c, dataYear, tmcExtent);
    assert NamedFor(DirList(dataYear, truckDir, paxDir, combDir, tmcExtent), dataYear, tmcExtent);
  }

  /** The downloads of one data set go to pairwise different tables. */
  lemma DirListTablesDistinct(dataYear: int, truckDir: Option<string>, paxDir: Option<string>, combDir: Option<string>, tmcExtent: string)
    ensures var l := DirList(dataYear, truckDir, paxDir, combDir, tmcExtent);
      forall i, j :: 0 <= i < j < |l| ==> l[i].sqlServerTableName != l[j].sqlServerTableName
  {
    var l := DirList(dataYear, truckDir, paxDir, combDir, tmcExtent);
    DirListOrder(dataYear, truckDir, paxDir, combDir, tmcExtent);
    DirListTables(dataYear, truckDir, paxDir, combDir, tmcExtent);
    forall i, j | 0 <= i < j < |l|
      ensures l[i].sqlServerTableName != l[j].sqlServerTableName
    {
      if l[i].sqlServerTableName == l[j].sqlServerTableName {
        TableNameVehInjective(dataYear, tmcExtent, l[i].vehtypeTblname, l[j].vehtypeTblname, "");
      }
    }
  }

  /** The TMC specification table: `npmrds_{year}_{extent}_txt`. */
  function SpecTableName(dataYear: int, tmcExtent: string): string
  {
    "npmrds_" + IntToString(dataYear) + "_" + tmcExtent + "_txt"
  }

  const SpecCsvName := "TMC_Identification.csv"

  lemma VehTypesTable()
    ensures "truck" in VehTypes && VehTypes["truck"] == "trucks"
    ensures "passenger" in VehTypes && VehTypes["passenger"] == "paxveh"
    ensures "all" in VehTypes && VehTypes["all"] == "paxtruck_comb"
  {
  }

  /** `RawTTCSV(dir, data_year, vehtype, tmc_extent=..., tbl_name_addl='')` for a known vehicle type. */
  method NewDownload(dir: string, dataYear: int, vehtype: string, tmcExtent: string) returns (d: RawTTCSV)
    requires vehtype in VehTypes
    ensures d == Download(dir, dataYear, VehTypes[vehtype], tmcExtent)
  {
    NewRawTTCSVDownload(dir, dataYear, vehtype, tmcExtent);
    d := NewRawTTCSV(dir, dataYear, vehtype, tmcExtent, "").value;
  }

  /** One `if <dir>: ... data_dir_list.append(RawTTCSV(<dir>, data_year, <vehtype>, tmc_extent=..., tbl_name_addl=''))` step. */
  method AppendEntry(list: seq<RawTTCSV>, dir: Option<string>, dataYear: int, vehtype: string, tmcExtent: string)
    returns (list': seq<RawTTCSV>)
    requires vehtype in VehTypes
    ensures list' == list + Entry(dir, dataYear, VehTypes[vehtype], tmcExtent)
  {
    list' := list;
    if Truthy(dir) {
      var data := NewDownload(dir.value, dataYear, vehtype, tmcExtent);
      list' := list' + [data];
    }
  }

  /** The three appends of `DataSet.__init__`, in the order truck, passenger, combined. */
  method BuildDirList(dataYear: int, truckDir: Option<string>, paxDir: Option<string>, combDir: Option<string>, tmcExtent: string)
    returns (list: seq<RawTTCSV>)
    ensures list == DirList(dataYear, truckDir, paxDir, combDir, tmcExtent)
  {
    VehTypesTable();
    list := AppendEntry([], truckDir, dataYear, "truck", tmcExtent);
    list := AppendEntry(list, paxDir, dataYear, "passenger", tmcExtent);
    list := AppendEntry(list, combDir, dataYear, "all", tmcExtent);
    assert [] + Entry(truckDir, dataYear, "trucks", tmcExtent) == Entry(truckDir, dataYear, "trucks", tmcExtent);
  }

  /** What `DataSet.__init__` sets up: the extent, the download list, and the specification CSV and table. */
  class DataSet {
    var tmcExtent: string
    var dataDirList: seq<RawTTCSV>
    var tmcSpecCsv: string
    var tmcSpecTblname: string

    /** `DataSet(data_year, truck_data_dir, pax_data_dir, comb_data_dir, tmc_extent)`; the first entry must exist (line 154). */
    constructor (dataYear: int, truckDir: Option<string>, paxDir: Option<string>, combDir: Option<string>, extent: string)
      requires AnyDir(truckDir, paxDir, combDir)
      ensures tmcExtent == extent + "tmc"
      ensures dataDirList == DirList(dataYear, truckDir, paxDir, combDir, extent + "tmc")
      ensures |dataDirList| > 0 && tmcSpecCsv == JoinPath(dataDirList[0].dataDir, SpecCsvName)
      ensures tmcSpecTblname == SpecTableName(dataYear, extent + "tmc")
    {
      var ext := extent + "tmc";
      tmcExtent := ext;
      var list := BuildDirList(dataYear, truckDir, paxDir, combDir, ext);
      DirListCount(dataYear, truckDir, paxDir, combDir, ext);
      dataDirList := list;
      var firstDataDir := list[0].dataDir;
      tmcSpecCsv := JoinPath(firstDataDir, SpecCsvName);
      tmcSpecTblname := SpecTableName(dataYear, ext);
    }
  }

  /** Building a data set: IndexError when no directory is given, the data set otherwise. */
  method NewDataSet(dataYear: int, truckDir: Option<string>, paxDir: Option<string>, combDir: Option<string>, extent: string)
    returns (r: Result<DataSet, PyError>)
    ensures r.Err? <==> !AnyDir(truckDir, paxDir, combDir)
    ensures r.Err? ==> r.error == IndexError
    ensures r.Ok? ==> fresh(r.value) && r.value.dataDirList == DirList(dataYear, truckDir, paxDir, combDir, extent + "tmc")
    ensures r.Ok? ==> r.value.tmcExtent == extent + "tmc"
    ensures r.Ok? ==> |r.value.dataDirList| > 0 && r.value.tmcSpecCsv == JoinPath(r.value.dataDirList[0].dataDir, SpecCsvName)
    ensures r.Ok? ==> r.value.tmcSpecTblname == SpecTableName(dataYear, extent + "tmc")
  {
    if !AnyDir(truckDir, paxDir, combDir) {
      return Err(IndexError);
    }
    var ds := new DataSet(dataYear, truckDir, paxDir, combDir, extent);
    r := Ok(ds);
  }
}
