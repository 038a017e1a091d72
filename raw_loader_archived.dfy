/**
 * The January 2021 version of the raw NPMRDS loader. Its naming is the current loader's
 * (module RawLoader) except that the TMC extent defaults to, and in `DataSet` is fixed
 * at, "alltmc".
 */
module RawLoaderArchived {
  import opened Wrappers
  import RawLoader

  /** The extent every archived table name carries unless a caller passes another. */
  const DefaultExtent := "alltmc"

  /** `RawTTCSV(data_dir, data_year, vehtype, tmc_extent='alltmc', tbl_name_addl='')`; `None` stands for the omitted argument, which takes the default. */
  function NewRawTTCSV(dataDir: string, dataYear: int, vehtype: string, tmcExtent: Option<string>, tblNameAddl: string)
    : (r: Result<RawLoader.RawTTCSV, PyError>)
    ensures r.Err? <==> vehtype !in RawLoader.VehTypes
    ensures r.Err? ==> r.error == KeyError(vehtype)
    ensures r.Ok? ==> r.value.tmcExtent == if tmcExtent.Some? then tmcExtent.value else "alltmc"
    ensures r.Ok? ==> r.value.sqlServerTableName == RawLoader.TableName(dataYear, r.value.tmcExtent, RawLoader.VehTypes[vehtype], RawLoader.ExtraSuffix(tblNameAddl))
  {
    RawLoader.NewRawTTCSV(dataDir, dataYear, vehtype, if tmcExtent.Some? then tmcExtent.value else DefaultExtent, tblNameAddl)
  }

  /** A download left at the archived default is the one the current loader makes at its own default extent "all". */
  lemma DefaultMatchesCurrent(dataDir: string, dataYear: int, vehtype: string, tblNameAddl: string)
    ensures NewRawTTCSV(dataDir, dataYear, vehtype, None, tblNameAddl) == RawLoader.NewRawTTCSV(dataDir, dataYear, vehtype, "all" + "tmc", tblNameAddl)
  {
    assert DefaultExtent == "all" + "tmc";
  }

  /** What the archived `DataSet.__init__` sets up: extent "alltmc", the download list and the specification CSV and table. */
  class DataSet {
    var tmcExtent: string
    var dataDirList: seq<RawLoader.RawTTCSV>
    var tmcSpecCsv: string
    var tmcSpecTblname: string

    /** `DataSet(data_year, truck_data_dir, pax_data_dir, comb_data_dir)`; the first entry must exist (line 117). */
    constructor (dataYear: int, truckDir: Option<string>, paxDir: Option<string>, combDir: Option<string>)
      requires RawLoader.AnyDir(truckDir, paxDir, combDir)
      ensures tmcExtent == DefaultExtent
      ensures dataDirList == RawLoader.DirList(dataYear, truckDir, paxDir, combDir, DefaultExtent)
      ensures |dataDirList| > 0 && tmcSpecCsv == RawLoader.JoinPath(dataDirList[0].dataDir, RawLoader.SpecCsvName)
      ensures tmcSpecTblname == RawLoader.SpecTableName(dataYear, DefaultExtent)
    {
      var ext := DefaultExtent;
      tmcExtent := ext;
      var list := RawLoader.BuildDirList(dataYear, truckDir, paxDir, combDir, ext);
      RawLoader.DirListCount(dataYear, truckDir, paxDir, combDir, ext);
      dataDirList := list;
      var firstDataDir := list[0].dataDir;
      tmcSpecCsv := RawLoader.JoinPath(firstDataDir, RawLoader.SpecCsvName);
      tmcSpecTblname := RawLoader.SpecTableName(dataYear, ext);
    }
  }

  /** Building an archived data set: IndexError when no directory is given, the data set otherwise. */
  method NewDataSet(dataYear: int, truckDir: Option<string>, paxDir: Option<string>, combDir: Option<string>)
    returns (r: Result<DataSet, PyError>)
    ensures r.Err? <==> !RawLoader.AnyDir(truckDir, paxDir, combDir)
    ensures r.Err? ==> r.error == IndexError
    ensures r.Ok? ==> fresh(r.value) && r.value.dataDirList == RawLoader.DirList(dataYear, truckDir, paxDir, combDir, DefaultExtent)
    ensures r.Ok? ==> r.value.tmcExtent == DefaultExtent
    ensures r.Ok? ==> |r.value.dataDirList| > 0 && r.value.tmcSpecCsv == RawLoader.JoinPath(r.value.dataDirList[0].dataDir, RawLoader.SpecCsvName)
    ensures r.Ok? ==> r.value.tmcSpecTblname == RawLoader.SpecTableName(dataYear, DefaultExtent)
  {
    if !RawLoader.AnyDir(truckDir, paxDir, combDir) {
      return Err(IndexError);
    }
    var ds := new DataSet(dataYear, truckDir, paxDir, combDir);
    r := Ok(ds);
  }

  /** The archived data set loads into the tables the current one loads into at its default extent "all". */
  lemma SameTablesAsCurrentDefault(dataYear: int, truckDir: Option<string>, paxDir: Option<string>, combDir: Option<string>)
    ensures RawLoader.DirList(dataYear, truckDir, paxDir, combDir, DefaultExtent) == RawLoader.DirList(dataYear, truckDir, paxDir, combDir, "all" + "tmc")
    ensures RawLoader.SpecTableName(dataYear, DefaultExtent) == RawLoader.SpecTableName(dataYear, "all" + "tmc")
  {
    assert DefaultExtent == "all" + "tmc";
  }
}
