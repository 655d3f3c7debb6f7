/** The file-modified index of elbow/filters/meta.py: a map from absolute path
    to modification time, read from the `file_path` and `mod_time` columns of
    a previous build's output, and a filter that passes only paths that are
    new or have changed since they were indexed.

    The index is never changed after construction, so it is a value here. The
    filesystem is a value too: a map from absolute path to its current mtime
    (a missing key is a path that does not exist), with `absolute` standing for
    `Path(path).absolute()`. */
module MetaFilter {
  import opened Wrappers

  const PathColumn: string := "file_path"
  const MtimeColumn: string := "mod_time"

  /** One row of the two index columns. */
  datatype IndexRow = IndexRow(path: string, mtime: int)

  /** What `pq.read_table` finds at the destination: whether its files can be
      read together at all (a corrupt file or clashing schemas make it raise
      `ArrowInvalid` whatever the columns), the names of its columns and, row
      by row, the values of the two index columns. */
  datatype StoredTable = StoredTable(readable: bool, columns: set<string>, rows: seq<IndexRow>)

  /** `from_parquet` turns any `ArrowInvalid` (an unreadable table or a
      missing index column) into one ValueError. */
  datatype IndexReadError = MissingIndexColumns(pathColumn: string, mtimeColumn: string)

  datatype FileSystem = FileSystem(absolute: string -> string, mtimes: map<string, int>)

  datatype FileModifiedIndex = FileModifiedIndex(index: map<string, int>)
  {
    /** `filter`: a path passes when it exists and is either not indexed (new)
        or has an mtime strictly greater than the indexed one (changed). */
    function Filter(fs: FileSystem, path: string): (r: bool)
      ensures var p := fs.absolute(path);
        r <==> p in fs.mtimes && (p in index ==> fs.mtimes[p] > index[p])
    {
      var p := fs.absolute(path);
      if p !in fs.mtimes then false
      else if p !in index then true
      else fs.mtimes[p] > index[p]
    }
  }

  /** The paths of the index column. */
  function Paths(rows: seq<IndexRow>): set<string>
  {
    set i | 0 <= i < |rows| :: rows[i].path
  }

  /** `from_df`: the dict comprehension over the rows, in row order, so that a
      later row for the same path overwrites an earlier one. */
  function FromDf(rows: seq<IndexRow>): (idx: FileModifiedIndex)
    ensures idx.index.Keys == Paths(rows)
    ensures |idx.index| <= |rows|
  {
    if rows == [] then FileModifiedIndex(map[])
    else
      var last := rows[|rows| - 1];
      var prev := FromDf(rows[..|rows| - 1]);
      assert Paths(rows) == Paths(rows[..|rows| - 1]) + {last.path} by {
        forall p | p in Paths(rows) ensures p in Paths(rows[..|rows| - 1]) + {last.path} {
          var i :| 0 <= i < |rows| && rows[i].path == p;
          if i < |rows| - 1 {
            assert rows[..|rows| - 1][i] == rows[i];
          }
        }
        forall p | p in Paths(rows[..|rows| - 1]) ensures p in Paths(rows) {
          var i :| 0 <= i < |rows| - 1 && rows[..|rows| - 1][i].path == p;
          assert rows[i].path == p;
        }
      }
      FileModifiedIndex(prev.index[last.path := last.mtime])
  }

  /** `from_parquet`: any `ArrowInvalid` from reading the table, an unreadable
      table or one without both index columns, becomes the same ValueError;
      otherwise the index is `from_df` of its rows. */
  function FromParquet(t: StoredTable): (r: Result<FileModifiedIndex, IndexReadError>)
    ensures r.Failure? <==> !t.readable || PathColumn !in t.columns || MtimeColumn !in t.columns
    ensures r.Success? ==> r.value.index.Keys == Paths(t.rows)
    ensures r.Success? ==> r.value == FromDf(t.rows)
  {
    if t.readable && PathColumn in t.columns && MtimeColumn in t.columns then Success(FromDf(t.rows))
    else Failure(MissingIndexColumns(PathColumn, MtimeColumn))
  }

  /** The index holds the mtime of the last row for each path. */
  lemma {:induction false} LastRowWins(rows: seq<IndexRow>, i: nat)
    requires i < |rows|
    requires forall j :: i < j < |rows| ==> rows[j].path != rows[i].path
    ensures rows[i].path in FromDf(rows).index
    ensures FromDf(rows).index[rows[i].path] == rows[i].mtime
  {
    if i < |rows| - 1 {
      var init := rows[..|rows| - 1];
      assert init[i] == rows[i];
      forall j | i < j < |init| ensures init[j].path != init[i].path {
        assert init[j] == rows[j];
      }
      LastRowWins(init, i);
    }
  }

  /** An indexed path passes exactly when it still exists and its current
      mtime is strictly greater than the one in its last row: an unchanged
      (or older) file is excluded. */
  lemma FilterIndexed(rows: seq<IndexRow>, fs: FileSystem, path: string, i: nat)
    requires i < |rows| && rows[i].path == fs.absolute(path)
    requires forall j :: i < j < |rows| ==> rows[j].path != rows[i].path
    ensures FromDf(rows).Filter(fs, path) <==>
              fs.absolute(path) in fs.mtimes && fs.mtimes[fs.absolute(path)] > rows[i].mtime
  {
    LastRowWins(rows, i);
  }

  /** A path with no row passes exactly when it exists: it is new. */
  lemma FilterUnindexed(rows: seq<IndexRow>, fs: FileSystem, path: string)
    requires forall j :: 0 <= j < |rows| ==> rows[j].path != fs.absolute(path)
    ensures FromDf(rows).Filter(fs, path) <==> fs.absolute(path) in fs.mtimes
  {
    assert fs.absolute(path) !in Paths(rows);
  }

  /** After an incremental build, a file is selected again only once its mtime
      has grown past the one recorded: indexing a file at its current mtime
      excludes it, for as long as it is not modified. */
  lemma {:induction false} ReindexedFileExcluded(rows: seq<IndexRow>, fs: FileSystem, path: string)
    requires fs.absolute(path) in fs.mtimes
    ensures !FromDf(rows + [IndexRow(fs.absolute(path), fs.mtimes[fs.absolute(path)])]).Filter(fs, path)
  {
    var rows' := rows + [IndexRow(fs.absolute(path), fs.mtimes[fs.absolute(path)])];
    LastRowWins(rows', |rows'| - 1);
  }
}
