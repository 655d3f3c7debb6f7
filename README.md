# elbow build pipeline, modelled in Dafny

elbow extracts records from a stream of files and loads them into a Parquet
dataset. This project models four sequential parts of that pipeline and proves
properties about them.

- **The buffered table writer** (`BufferedParquetWriter`,
  `parquet_sink.dfy`). Records collect in a batch. A full batch is pushed onto
  an in-memory buffer table. A buffer that passes its byte threshold is
  written to a Parquet writer, which is opened lazily. The first non-empty
  batch fixes the schema, unless a schema was given, and every later batch is
  strict. The class keeps the source's fields and updates them in place.
  `_batch` is a `RecordBatch` value (its records and its strict flag) and
  `_writer` is an optional `ParquetFile` value (the schema it was opened
  with, the tables handed to it, and whether it is closed). Each
  method is specified by a transition function on a snapshot of those fields
  (`WriterState`). The writer's guarantees are lemmas about those functions:
  - the invariant `Inv` and the bounds `Bounded` hold after every call;
  - nothing is lost or reordered;
  - the schema state machine never goes back;
  - the writer is opened at most once;
  - `total_bytes()` never decreases.
- **The build decisions** (`builders.dfy`). These cover:
  - validation of `worker_id`, `overwrite` and `workers`;
  - whether an existing destination is removed, refused or kept;
  - resolving the worker count;
  - which worker ids are launched;
  - how a worker narrows its stream of paths with the file-modified index and
    its partition predicate;
  - how a worker names its segment `part-<timestamp>-<id>.parquet`, and
    refuses to overwrite one.
- **The file-modified index** (`meta_filter.dfy`). This is a map from
  absolute path to modification time, built from the `file_path` and
  `mod_time` columns of the previous output; the last row wins. Its filter
  passes new and changed files. The index is never mutated after
  construction, so it is a value here. Repeated calls on the same filesystem
  give the same answer.
- **The directory crawler** (`filesystem_source.dfy`). This covers exclude
  patterns (`_Pattern`), the in-place reverse-order pruning of a directory
  listing (`_remove_exclude`), and the argument normalisation of
  `crawldirs`. It also covers the walk that `crawldirs` drives, with
  `os.walk` modelled as a top-down traversal of a directory tree value.

`seqs.dfy` holds Python's `filter`, list concatenation and sums, with their
lemmas. `wrappers.dfy` holds `Option` and `Result`.

pyarrow, the filesystem, the clock, the process pool and the helpers that
live in other modules are parameters of the model:
- an `Arrow` value of functions: batch size, table size, schema inference,
  strict-schema conformance and `parse_size`;
- a `FileSystem` map from path to mtime, with `absolute` standing for
  `Path.absolute()`;
- an "exists" flag for the destination;
- the set of names already in the destination;
- a `DateTime`;
- a CPU count;
- an abstract `glob` function;
- an abstract partition predicate for `hash_partitioner`;
- abstract `join`, `posixJoin` and `fnmatch` functions.

Behaviours of the source, modelled as written:
- A buffer size below zero makes every `write` flush. The flush pushes the
  partial batch, so the buffer is always left empty.
- A buffer size of zero makes a `write` flush only when the buffer holds some
  bytes. A partial batch waits in the batch until it is full, and a
  write that does not fill it opens no writer.
- A batch size of one or less pushes every record at once.
- `build_parquet` does not check that an explicit `worker_id` lies below
  `workers`.
- With `workers == 1`, a given `worker_id` is ignored and worker 0 runs.

## Model

| member | source | states |
|---|---|---|
| ParquetSink.BufferedParquetWriter.constructor | elbow/sinks/parquet.py:35-59 | The threshold is `parse_size` of a string and the integer itself otherwise. No writer exists yet. The batch and the buffer are empty and both counters are zero. The batch is strict iff a schema was given. The invariant holds. |
| ParquetSink.InitialStateValid | elbow/sinks/parquet.py:53-59 | The freshly constructed fields satisfy the writer invariant and the between-calls bounds. |
| ParquetSink.PushKeepsInv | elbow/sinks/parquet.py:74-93 | `_push_batch` on an empty batch changes nothing. Otherwise it appends the batch to the end of the buffer, adds its size to `_buffer_bytes` and leaves an empty strict batch. It keeps the invariant and every accepted record, and a fixed schema stays fixed. |
| ParquetSink.PushConforms | elbow/sinks/parquet.py:82-93 | The schema is the given one, or the one inferred from the first pushed batch. Every batch pushed while strict conforms to it. |
| ParquetSink.PushKeepsBuffer | elbow/sinks/parquet.py:85-90 | Appending a batch to the buffer table with its size keeps the accounting. The pushed batches are the written tables' batches followed by the buffer's. `_buffer_bytes` is the buffer's size, and `_total_bytes` is the written tables' size. |
| ParquetSink.AppendKeepsInv | elbow/sinks/parquet.py:65 | Appending a record that the batch accepts keeps the invariant. |
| ParquetSink.OpenWriterHasSchema | elbow/sinks/parquet.py:101-110 | Once a writer exists, a batch has been pushed and the schema is fixed. |
| ParquetSink.WriteBufferKeepsInv | elbow/sinks/parquet.py:101-117 | Handing a non-empty buffer to the writer keeps the invariant. The written tables become the old ones plus the buffer table, its size is added to `_total_bytes`, and buffer and `_buffer_bytes` are cleared. The writer's schema is the one it already had, or the fixed schema when it is opened on first use. |
| ParquetSink.FlushKeepsInv | elbow/sinks/parquet.py:95-117 | `flush` keeps the invariant and every accepted record. It leaves batch, buffer and `_buffer_bytes` empty, and keeps the schema and an already-open writer's schema. |
| ParquetSink.WriteKeepsValid | elbow/sinks/parquet.py:61-72 | `write` rejects a record iff the batch is strict and the record does not conform. Otherwise the record is appended to the accepted ones, the batch is shorter than `batch_size`, and `_buffer_bytes` is within the threshold or zero. The invariant holds and the schema never changes once fixed. |
| ParquetSink.WrittenBytes | elbow/sinks/parquet.py:112-115 | With additive table sizes, the bytes of the written tables are the bytes of all their batches. |
| ParquetSink.TotalBytesIsPushedBytes | elbow/sinks/parquet.py:127-131 | With additive table sizes, written plus buffered bytes is the size of every batch pushed so far. |
| ParquetSink.FlushExtendsPushed | elbow/sinks/parquet.py:74-99 | Pushing and flushing only add batches to the end of what was pushed before. |
| ParquetSink.WriteTotalBytesGrows | elbow/sinks/parquet.py:127-131 | `total_bytes()` never decreases across an accepted `write`, given additive table sizes. |
| ParquetSink.FlushKeepsTotalBytes | elbow/sinks/parquet.py:112-117 | `total_bytes()` never decreases across `flush`, given additive table sizes. |
| ParquetSink.CloseWritesEverything | elbow/sinks/parquet.py:119-125 | After `close`, batch and buffer are empty and the invariant holds. The records of all written tables, concatenated, are exactly the accepted records in order. A writer that was opened is closed. If no record was accepted, no writer was ever created. |
| ParquetSink.BufferedParquetWriter.TotalBytes | elbow/sinks/parquet.py:127-131 | `total_bytes()` is the size of every pushed batch, when table sizes are additive. |
| ParquetSink.BufferedParquetWriter.PushBatch | elbow/sinks/parquet.py:74-93 | The fields after `_push_batch` are the push transition of the fields before. |
| ParquetSink.BufferedParquetWriter.Flush | elbow/sinks/parquet.py:95-117 | The fields after `flush` are the flush transition of the fields before. Batch and buffer are empty and no record is lost. A writer that satisfied its invariant before still satisfies it. |
| ParquetSink.BufferedParquetWriter.Write | elbow/sinks/parquet.py:61-72 | The write transition. The invariant and bounds still hold. The record is accepted iff the batch is not strict or the record conforms; an accepted record is appended. A fixed schema is kept, and `total_bytes()` does not decrease. |
| ParquetSink.BufferedParquetWriter.Accept | elbow/sinks/parquet.py:65-72 | For a record the batch accepts, the fields afterwards are the write transition of the fields before. |
| ParquetSink.BufferedParquetWriter.Close | elbow/sinks/parquet.py:119-125 | The fields after `close` are the close transition of the fields before. The invariant and the between-calls bounds hold, and the writer object is marked closed. `close` may be called again. |
| MetaFilter.FromDf | elbow/filters/meta.py:22-38 | The index's keys are exactly the paths of the path column, and there are at most as many keys as rows. |
| MetaFilter.LastRowWins | elbow/filters/meta.py:34-37 | For duplicate paths, the mtime of the last row for that path is the one kept. |
| MetaFilter.FromParquet | elbow/filters/meta.py:40-58 | Reading fails with the one ValueError iff the table cannot be read or either index column is absent. Otherwise the index is `from_df` of the stored rows: its keys are their paths and each mtime is the last row's for that path. |
| MetaFilter.FileModifiedIndex.Filter | elbow/filters/meta.py:60-74 | A path passes iff its absolute path exists and is either not indexed or has a current mtime strictly greater than the indexed one. |
| MetaFilter.FilterIndexed | elbow/filters/meta.py:60-74 | An indexed path passes iff it exists and its current mtime is strictly greater than its last row's. A missing file or an unchanged mtime is excluded. |
| MetaFilter.FilterUnindexed | elbow/filters/meta.py:66-72 | A path with no row passes iff it exists. |
| MetaFilter.ReindexedFileExcluded | elbow/filters/meta.py:60-74 | A file indexed at its current mtime is not selected again until it is modified. |
| Builders.Validate | elbow/builders.py:88-92 | No error iff there is no `worker_id`, or `overwrite` is off and `workers` > 0. The first error occurs iff `worker_id` comes with `overwrite`. The second occurs iff `worker_id` comes without `overwrite` and without a positive `workers`. |
| Builders.DestinationAction | elbow/builders.py:94-99 | Failure (`FileExistsError`) iff the destination exists, the build is not in place and `overwrite` is off. The destination is removed iff it exists, the build is not in place and `overwrite` is on. |
| Builders.ResolveWorkers | elbow/builders.py:101-104 | None becomes 1, a value ≤ 0 becomes the CPU count, and any other value is kept. The result is always ≥ 1. |
| Builders.Launches | elbow/builders.py:117-123 | Some worker always runs. One worker means exactly worker 0. More than one worker with a `worker_id` means that id alone. Without a `worker_id`, one launch per worker, ids below the worker count; with more than one worker these are exactly 0..W-1 in order. |
| Builders.Ids | elbow/builders.py:123 | The fan-out ids are 0..n-1 in order. |
| Builders.Plan | elbow/builders.py:88-123 | The build proceeds iff validation and the destination check pass. A validation error wins whatever the destination. A valid build whose destination check fails ends in `FileExistsError`. A removal happens only for a valid, non-incremental, overwriting build without `worker_id`. A build that proceeds takes the destination check's action, the resolved worker count (≥ 1) and the launches that count and `worker_id` give. |
| Builders.BuildParquet | elbow/builders.py:88-123 | The imperative dispatch, including the fan-out loop, computes exactly `Plan`. |
| Builders.IdsEachOnce | elbow/builders.py:122-123 | Fanning out submits every id below the worker count exactly once, and no other id. |
| Builders.DispatchCases | elbow/builders.py:117-123 | With one worker, exactly worker 0 runs, even when a `worker_id` was given. Otherwise a given `worker_id` runs alone. Otherwise ids 0..W-1 each run exactly once. |
| Builders.RepeatedBuildFails | tests/test_builders.py:48-49 | A from-scratch build succeeds on a missing destination and fails with `FileExistsError` once it exists. |
| Builders.FormatIntRoundTrip | elbow/builders.py:166 | `{id:04d}` reads back to the id, for negative ids as well. |
| Builders.TimestampRoundTrip | elbow/builders.py:166 | `%Y%m%d%H%M%S` of a valid date is 14 digits, and the date can be read back from it. |
| Builders.SegmentName | elbow/builders.py:166 | A segment name starts with `part-` and ends with `.parquet`, with at least one character between them. |
| Builders.SegmentNameFields | elbow/builders.py:166 | A segment name is `part-`, the 14-digit start time, `-`, the id padded to at least four characters (all digits when non-negative, exactly four when it fits, sign included), and `.parquet`. The time and the id read back. |
| Builders.SegmentNameInjective | elbow/builders.py:165-166 | Two segment names are equal only for the same start time and the same worker id. |
| Builders.LoadIndex | elbow/builders.py:153-157 | No index is loaded, and nothing fails, unless the build is incremental into an existing destination. In that case loading fails iff the stored table cannot be read or lacks an index column, and otherwise yields the index read from the stored table. |
| Builders.BuildParquetWorker | elbow/builders.py:148-168 | An index error comes first, then a segment-name collision (`FileExistsError`) before anything is written. Otherwise the stream is the source paths, in source order, that pass the index filter (when one was loaded) and the partition predicate (when there is more than one worker). |
| Builders.PartitionCovers | elbow/builders.py:159-163 | When the partitioner gives each path to exactly one worker, each index-selected source path reaches exactly one worker's stream. |
| FilesystemSource.MakePattern | elbow/sources/filesystem.py:16-19 | A pattern is full-path iff it contains `/`. |
| FilesystemSource.NameList.Pop | elbow/sources/filesystem.py:68 | `list.pop(i)` removes exactly the element at `i` and keeps the rest in order. |
| FilesystemSource.MatchesAny | elbow/sources/filesystem.py:63-68 | The inner pattern loop reports a match iff some pattern matches the name. A full-path pattern is tried against `root/name`, any other against the bare name. |
| FilesystemSource.RemoveExclude | elbow/sources/filesystem.py:57-69 | Afterwards the list is the original list minus every name some pattern matches, order preserved. A full-path pattern is matched against `root/name`, any other against the bare name. Each name is removed once, and every pop index is in bounds and is that name's original position. |
| FilesystemSource.DescendsIntoRemainingNames | elbow/sources/filesystem.py:49-52 | The walk descends into exactly the sub-directories whose names `_remove_exclude` leaves in `dirnames`, in order: walking the full listing equals walking the pruned one. |
| FilesystemSource.WalkAncestors | elbow/sources/filesystem.py:49-54 | Every file found below a directory carries the chain of directories that led there. |
| FilesystemSource.PruneIsFilter | elbow/sources/filesystem.py:49-54 | Walking with pruning yields exactly the files of the unpruned walk that lie below no excluded directory, in order. |
| FilesystemSource.SubdirsPruneIsFilter | elbow/sources/filesystem.py:50-52 | The same, for the sub-directories `os.walk` descends into after the listing was pruned. |
| FilesystemSource.CrawlDirs | elbow/sources/filesystem.py:22-54 | The generator's loop over the expanded roots yields exactly the crawl specified by `Crawl`. |
| FilesystemSource.CrawlIsPrunedCrawl | elbow/sources/filesystem.py:43-54 | A crawl with exclude patterns yields the crawl without them, minus the files below an excluded directory, in order. |
| FilesystemSource.NormalisedArguments | elbow/sources/filesystem.py:38-47 | A single root crawls like a one-element list. No exclude crawls like an empty list. A single pattern crawls like a one-element list. |
| FilesystemSource.DotDirectoriesSkipped | tests/test_sources/test_filesystem.py:23-29 | Excluding `.*` never yields a file below a dot-directory that the walk descends into. A root whose own name starts with a dot is still crawled. |

## Left out

- pyarrow internals are abstract functions of the `Arrow` value: `to_arrow`, `concat_tables`, `get_total_buffer_size`, `ParquetWriter`, `read_table`, and the `row_group_size` argument. A converted batch is its records, a buffer table is its batches, and a written table is only recorded, not encoded.
- `RecordBatch` is modelled as its records and its strict flag. Its schema is always `_schema`, so it is not stored again. Its conversion `to_arrow` is not part of this model, and a strict batch's rejection of a non-conforming record is an abstract predicate. The rejection is modelled as `write` returning false and changing nothing, where the source raises.
- `parse_size`, `cpu_count`, `hash_partitioner`, `iglob`/`glob` with `sorted`, `fnmatch`, `os.path.join` and `Path.as_posix` are abstract parameters. Their bodies are not part of this model.
- ParquetSink.BufferedParquetWriter.Write: requires the writer not to be closed, because writing after `close` is not modelled.
- ParquetSink.WriteTotalBytesGrows: states monotonicity only under the assumption that a table's size is the sum of its batches' sizes, because pyarrow's buffer sizes are not part of this model.
- `Pipeline`, extraction, `max_failures`, logging and `setup_logging` are not modelled. The worker is modelled up to the stream and segment name it hands to its pipeline.
- The process pool, `as_completed` and the logging of worker exceptions are concurrency. The fan-out is modelled as the list of submitted ids.
- Filesystem side effects are replaced by flags and maps: `shutil.rmtree`, `mkdir`, `atomicopen`, `Path.exists` and `Path.stat`. The race between workers reading the index while others write is not modelled.
- `os.walk` is modelled as a traversal of a directory-tree value. Symbolic links (`followlinks`) and errors while listing are not modelled.
- mtimes are integers rather than floats; only the `>` comparison is used.
- Custom column names for the index (`path_column`, `mtime_column`) are not modelled; the defaults are constants.
- Builders.ResolveWorkers: assumes `cpu_count()` returns at least 1, and so do Builders.Plan, Builders.BuildParquet and the lemmas about them, which pass the count on. `elbow.utils.cpu_count` is not part of this model, so its result is taken as a positive parameter.
- `iglob` and `filter` are lazy in the source: paths are produced while the pipeline consumes them, and files created or changed meanwhile may or may not be seen. The model computes the whole stream up front from one snapshot of the filesystem.
- MetaFilter.FromParquet: the causes of an `ArrowInvalid` other than a missing column (a corrupt file, schemas that do not merge) are one abstract `readable` flag of the stored table; which files make a table unreadable is not modelled.
- Builders.TimestampRoundTrip: years before 1000 are excluded, because `%Y` pads them differently by platform. Days are 1..31 with no calendar check.
- `build_table` and its pandas conversion are not modelled.
