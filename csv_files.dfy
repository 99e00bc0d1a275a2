/** `get_csv_files`: map each `.csv` file (a file or a link to one) of the `datas` directory to
    its table name (the file name without the extension) and path. */
module CsvFiles {
  import opened Wrappers

  /** One entry of the directory listing: its name and whether `is_file()`
      holds of it (a file, or a symbolic link to one). */
  datatype DirEntry = DirEntry(name: string, isFile: bool)

  const DataDir := "datas"
  const CsvSuffix := ".csv"

  /** `name.endswith('.csv')`, case-sensitive. */
  predicate EndsWithCsv(name: string) {
    |name| >= |CsvSuffix| && name[|name| - |CsvSuffix|..] == CsvSuffix
  }

  predicate Qualifies(e: DirEntry) {
    e.isFile && EndsWithCsv(e.name)
  }

  /** `file_name[:-4]`: putting the suffix back gives the file name, so
      ".csv" itself gives the empty table name. */
  function TableName(fileName: string): (key: string)
    requires EndsWithCsv(fileName)
    ensures key + CsvSuffix == fileName
  {
    fileName[..|fileName| - |CsvSuffix|]
  }

  /** `os.path.join(dir, name)` for a plain entry name, with the POSIX separator. */
  function JoinPath(dir: string, name: string): string {
    dir + "/" + name
  }

  /** The qualifying entries, in listing order. */
  function Qualifying(entries: seq<DirEntry>): seq<DirEntry> {
    if entries == [] then []
    else
      var last := entries[|entries| - 1];
      Qualifying(entries[..|entries| - 1]) + (if Qualifies(last) then [last] else [])
  }

  predicate DistinctNames(entries: seq<DirEntry>) {
    forall i, j :: 0 <= i < j < |entries| ==> entries[i].name != entries[j].name
  }

  /** `get_csv_files`. `listing` is the directory's entries, or `None` when the
      directory does not exist (the `FileNotFoundError` case). */
  method GetCsvFiles(listing: Option<seq<DirEntry>>) returns (csvFiles: map<string, string>)
    ensures listing.None? ==> csvFiles == map[]
    ensures listing.Some? ==>
      forall key :: key in csvFiles <==> DirEntry(key + CsvSuffix, true) in listing.value
    ensures forall key :: key in csvFiles ==> csvFiles[key] == JoinPath(DataDir, key + CsvSuffix)
    ensures listing.Some? && DistinctNames(listing.value) ==> |csvFiles| == |Qualifying(listing.value)|
  {
    csvFiles := map[];
    if listing.None? {
      return;
    }
    var entries := listing.value;
    for i := 0 to |entries|
      invariant forall key :: key in csvFiles <==> DirEntry(key + CsvSuffix, true) in entries[..i]
      invariant forall key :: key in csvFiles ==> csvFiles[key] == JoinPath(DataDir, key + CsvSuffix)
      invariant DistinctNames(entries) ==> |csvFiles| == |Qualifying(entries[..i])|
    {
      assert entries[..i + 1] == entries[..i] + [entries[i]];
      assert entries[..i + 1][..i] == entries[..i];
      var entry := entries[i];
      if entry.isFile {
        var fileName := entry.name;
        if |fileName| >= 4 && fileName[|fileName| - 4..] == ".csv" {
          var tableName := fileName[..|fileName| - 4];
          assert tableName == TableName(fileName);
          var filePath := JoinPath(DataDir, fileName);
          csvFiles := csvFiles[tableName := filePath];
        }
      }
    }
    assert entries[..|entries|] == entries;
  }
}
