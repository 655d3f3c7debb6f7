/** The buffered table writer of elbow/sinks/parquet.py.

    Records collect in a batch; a full batch is converted to a table and pushed
    onto an in-memory buffer table; once the buffer's byte size passes the
    threshold, the buffer is written to a lazily opened Parquet writer. The
    schema is fixed by the first non-empty batch (or given up front), and every
    later batch is strict.

    pyarrow is not part of this model: a converted batch is its sequence of
    records, a buffer table is the sequence of its batches, a Parquet writer is
    the schema it was opened with and the tables handed to it, and byte sizes,
    schema inference and strict-schema conformance are the abstract functions
    of an `Arrow` value.

    The class `BufferedParquetWriter` holds the writer's fields and updates them
    in place; each of its methods is specified by a transition function on a
    snapshot of those fields (`WriterState`), and the properties of the writer
    are proved as lemmas about those transitions. */
module ParquetSink {
  import opened Wrappers
  import opened Seqs

  /** The `buffer_size` argument: a size string such as "64 MiB", or a byte count. */
  datatype BufferSize = SizeString(text: string) | SizeBytes(bytes: int)

  /** The collaborators the writer consults. */
  datatype Arrow<!R, !S> = Arrow(
    batchBytes: seq<R> -> nat,        // get_total_buffer_size() of a converted batch
    tableBytes: seq<seq<R>> -> nat,   // get_total_buffer_size() of a buffer table
    inferSchema: seq<R> -> S,         // the schema to_arrow() infers for a non-strict batch
    conforms: (S, R) -> bool,         // a strict RecordBatch accepts the record
    parseSize: string -> int)         // elbow.utils.parse_size

  /** The size of a buffer table is the sum of the sizes of its batches. */
  ghost predicate Additive<R(!new), S>(a: Arrow<R, S>)
  {
    forall t :: a.tableBytes(t) == Sum(a.batchBytes, t)
  }

  /** The byte threshold the constructor derives from `buffer_size`. */
  function Threshold<R, S>(a: Arrow<R, S>, size: BufferSize): int
  {
    match size
    case SizeString(text) => a.parseSize(text)
    case SizeBytes(n) => n
  }

  /** A `RecordBatch`: its records and whether it is strict. Its schema is
      always the writer's `_schema`, so it is not repeated here. */
  datatype RecordBatch<R> = RecordBatch(rows: seq<R>, strict: bool)

  /** A `pq.ParquetWriter`: the schema it was opened with, the tables handed
      to it in order, and whether it has been closed. */
  datatype ParquetFile<R, S> = ParquetFile(schema: Option<S>, tables: seq<seq<seq<R>>>, closed: bool)

  /** A snapshot of the writer's fields. `records`, `pushed` and `closed` are
      bookkeeping of the model: every accepted record, every pushed batch, and
      whether `close` has run. */
  datatype WriterState<R, S> = WriterState(
    batch: RecordBatch<R>,              // _batch
    table: seq<seq<R>>,                 // _table as its batches; [] stands for None
    schema: Option<S>,                  // _schema
    writer: Option<ParquetFile<R, S>>,  // _writer
    totalBytes: int,                    // _total_bytes
    bufferBytes: int,                   // _buffer_bytes
    records: seq<R>,
    pushed: seq<seq<R>>,
    closed: bool)

  /** The tables handed to a writer so far; none while there is no writer. */
  function Tables<R, S>(writer: Option<ParquetFile<R, S>>): seq<seq<seq<R>>>
  {
    match writer
    case Some(w) => w.tables
    case None => []
  }

  /** The fields right after `__init__`. */
  function InitialState<R, S>(schema: Option<S>): WriterState<R, S>
  {
    WriterState(RecordBatch([], schema.Some?), [], schema, None, 0, 0, [], [], false)
  }

  /** The schema state machine: the given schema if there is one, otherwise
      none until a batch has been pushed and then the schema inferred from the
      first pushed batch. */
  function FixedSchema<R, S>(a: Arrow<R, S>, given: Option<S>, pushed: seq<seq<R>>): Option<S>
  {
    if given.Some? then given
    else if pushed == [] then None
    else Some(a.inferSchema(pushed[0]))
  }

  ghost predicate AllNonEmpty<T>(ss: seq<seq<T>>)
  {
    forall i :: 0 <= i < |ss| ==> ss[i] != []
  }

  lemma AllNonEmptyAppend<T>(ss: seq<seq<T>>, x: seq<T>)
    requires AllNonEmpty(ss) && x != []
    ensures AllNonEmpty(ss + [x])
  {
    forall i | 0 <= i < |ss + [x]| ensures (ss + [x])[i] != [] {
      if i < |ss| { assert (ss + [x])[i] == ss[i]; }
    }
  }

  /** Every record of `rs` is accepted by a strict batch with schema `s`. */
  ghost predicate Conforming<R, S>(a: Arrow<R, S>, s: S, rs: seq<R>)
  {
    forall j :: 0 <= j < |rs| ==> a.conforms(s, rs[j])
  }

  /** Every pushed batch that was strict when filled (all of them when a schema
      was given, all but the first otherwise) conforms to the fixed schema. */
  ghost predicate StrictBatches<R, S>(a: Arrow<R, S>, given: Option<S>, schema: Option<S>, pushed: seq<seq<R>>)
  {
    forall i :: 0 <= i < |pushed| && (0 < i || given.Some?) ==>
      schema.Some? && Conforming(a, schema.value, pushed[i])
  }

  /** The batch is strict exactly when the schema is fixed, and a strict
      batch holds only conforming records. */
  ghost predicate BatchOk<R, S>(a: Arrow<R, S>, schema: Option<S>, batch: RecordBatch<R>)
  {
    && batch.strict == schema.Some?
    && (batch.strict ==> Conforming(a, schema.value, batch.rows))
  }

  /** The schema follows the schema state machine, and the pushed batches are
      non-empty and, where strict, conform to it. */
  ghost predicate SchemaOk<R, S>(a: Arrow<R, S>, given: Option<S>, schema: Option<S>, pushed: seq<seq<R>>)
  {
    && schema == FixedSchema(a, given, pushed)
    && AllNonEmpty(pushed)
    && StrictBatches(a, given, schema, pushed)
  }

  /** The pushed batches are the written tables' batches followed by the
      buffer's, and both byte counters are the sizes of what they count. */
  ghost predicate BufferOk<R, S>(a: Arrow<R, S>, writer: Option<ParquetFile<R, S>>, table: seq<seq<R>>,
                                 pushed: seq<seq<R>>, totalBytes: int, bufferBytes: int)
  {
    && AllNonEmpty(Tables(writer))
    && pushed == Flatten(Tables(writer)) + table
    && bufferBytes == Sum(a.batchBytes, table)
    && totalBytes == Sum(a.tableBytes, Tables(writer))
  }

  /** An existing writer was opened with the writer's schema, has been handed
      at least one table, and is closed only by `close`. */
  ghost predicate WriterOk<R, S>(writer: Option<ParquetFile<R, S>>, schema: Option<S>, closed: bool)
  {
    match writer
    case Some(w) => w.schema == schema && w.tables != [] && (w.closed ==> closed)
    case None => true
  }

  /** The invariant the writer keeps at every step. */
  ghost predicate Inv<R, S>(a: Arrow<R, S>, given: Option<S>, st: WriterState<R, S>)
  {
    && BatchOk(a, st.schema, st.batch)
    && SchemaOk(a, given, st.schema, st.pushed)
    && st.records == Flatten(st.pushed) + st.batch.rows
    && BufferOk(a, st.writer, st.table, st.pushed, st.totalBytes, st.bufferBytes)
    && WriterOk(st.writer, st.schema, st.closed)
  }

  /** What holds between calls of `write`: the batch is below the batch size
      and the buffer is within its threshold, or empty. */
  ghost predicate Bounded<R, S>(batchSize: int, threshold: int, st: WriterState<R, S>)
  {
    && |st.batch.rows| < Max(batchSize, 1)
    && (st.bufferBytes <= threshold || st.bufferBytes == 0)
  }

  /** `_push_batch`. */
  function PushState<R, S>(a: Arrow<R, S>, st: WriterState<R, S>): WriterState<R, S>
  {
    var b := st.batch.rows;
    if b == [] then st
    else
      var schema := if st.schema.Some? then st.schema else Some(a.inferSchema(b));
      st.(table := st.table + [b], pushed := st.pushed + [b],
          bufferBytes := st.bufferBytes + a.batchBytes(b),
          schema := schema, batch := RecordBatch([], true))
  }

  /** The writing half of `flush`: a non-empty buffer table goes to the writer,
      which is opened on first use with the fixed schema. */
  function WriteBuffer<R, S>(a: Arrow<R, S>, s: WriterState<R, S>): WriterState<R, S>
  {
    if s.table == [] then s
    else
      var w := if s.writer.Some? then s.writer.value else ParquetFile(s.schema, [], false);
      s.(writer := Some(w.(tables := w.tables + [s.table])),
         totalBytes := s.totalBytes + a.tableBytes(s.table),
         table := [], bufferBytes := 0)
  }

  /** `flush`. */
  function FlushState<R, S>(a: Arrow<R, S>, st: WriterState<R, S>): WriterState<R, S>
  {
    WriteBuffer(a, PushState(a, st))
  }

  /** Whether the current batch rejects `r`: only a strict batch does, for a
      record that does not conform to its schema. */
  function Rejects<R, S>(a: Arrow<R, S>, st: WriterState<R, S>, r: R): bool
  {
    match st.schema
    case Some(s) => st.batch.strict && !a.conforms(s, r)
    case None => false
  }

  /** `self._batch.append(record)` for a record the batch accepts. */
  function AppendRecord<R, S>(st: WriterState<R, S>, r: R): WriterState<R, S>
  {
    st.(batch := st.batch.(rows := st.batch.rows + [r]), records := st.records + [r])
  }

  /** `write`: None when the batch rejects the record. */
  function WriteState<R, S>(a: Arrow<R, S>, batchSize: int, threshold: int, st: WriterState<R, S>, r: R)
    : Option<WriterState<R, S>>
  {
    if Rejects(a, st, r) then None
    else
      var s1 := AppendRecord(st, r);
      var s2 := if |s1.batch.rows| >= batchSize then PushState(a, s1) else s1;
      Some(if s2.bufferBytes > threshold then FlushState(a, s2) else s2)
  }

  /** `close`. */
  function CloseState<R, S>(a: Arrow<R, S>, st: WriterState<R, S>): WriterState<R, S>
  {
    var s := FlushState(a, st);
    s.(closed := true, writer := if s.writer.Some? then Some(s.writer.value.(closed := true)) else None)
  }

  /** `total_bytes()`. */
  function StateTotalBytes<R, S>(st: WriterState<R, S>): int
  {
    st.totalBytes + st.bufferBytes
  }

  // ---------------------------------------------------------------------------
  // Properties of the transitions

  lemma InitialStateValid<R, S>(a: Arrow<R, S>, schema: Option<S>, batchSize: int, threshold: int)
    ensures Inv(a, schema, InitialState(schema))
    ensures Bounded(batchSize, threshold, InitialState<R, S>(schema))
  {
    assert Flatten<seq<R>>([]) == [];
    assert Flatten<R>([]) == [];
  }

  /** If the first of a list of lists is non-empty, so is their concatenation. */
  lemma FlattenNonEmpty<T>(ss: seq<seq<T>>)
    requires ss != [] && ss[0] != []
    ensures Flatten(ss) != []
  {
  }

  /** Once a writer exists, some batch has been pushed, so the schema is fixed. */
  lemma {:induction false} OpenWriterHasSchema<R, S>(a: Arrow<R, S>, given: Option<S>, st: WriterState<R, S>)
    requires Inv(a, given, st)
    requires st.writer.Some?
    ensures st.pushed != [] && st.schema.Some?
  {
    FlattenNonEmpty(Tables(st.writer));
  }

  /** Pushing a batch keeps `StrictBatches`: a batch pushed after the first was
      filled while strict, so it conforms to the schema fixed by then. */
  lemma {:induction false} PushConforms<R, S>(a: Arrow<R, S>, given: Option<S>, schema: Option<S>,
                                              schema': Option<S>, pushed: seq<seq<R>>, b: seq<R>)
    requires schema == FixedSchema(a, given, pushed)
    requires StrictBatches(a, given, schema, pushed)
    requires schema.Some? ==> Conforming(a, schema.value, b)
    requires schema' == (if schema.Some? then schema else Some(a.inferSchema(b)))
    ensures schema' == FixedSchema(a, given, pushed + [b])
    ensures StrictBatches(a, given, schema', pushed + [b])
  {
    var p := pushed + [b];
    forall i | 0 <= i < |p| && (0 < i || given.Some?)
      ensures schema'.Some? && Conforming(a, schema'.value, p[i])
    {
      if i < |pushed| {
        assert p[i] == pushed[i];
      }
    }
  }

  /** `_push_batch` keeps the invariant and the accepted records; an empty
      batch changes nothing, a non-empty one goes to the end of the buffer
      with its size, leaving a strict empty batch, and a fixed schema stays
      fixed. */
  lemma {:induction false} PushKeepsInv<R, S>(a: Arrow<R, S>, given: Option<S>, st: WriterState<R, S>)
    requires Inv(a, given, st)
    ensures Inv(a, given, PushState(a, st))
    ensures PushState(a, st).records == st.records
    ensures PushState(a, st).batch.rows == []
    ensures st.batch.rows == [] ==> PushState(a, st) == st
    ensures st.batch.rows != [] ==>
              && PushState(a, st).table == st.table + [st.batch.rows]
              && PushState(a, st).bufferBytes == st.bufferBytes + a.batchBytes(st.batch.rows)
              && PushState(a, st).batch.strict
    ensures st.schema.Some? ==> PushState(a, st).schema == st.schema
    ensures PushState(a, st).writer == st.writer && PushState(a, st).totalBytes == st.totalBytes
  {
    if st.batch.rows != [] {
      var s := PushState(a, st);
      var b := st.batch.rows;
      if st.writer.Some? {
        OpenWriterHasSchema(a, given, st);
      }
      PushConforms(a, given, st.schema, s.schema, st.pushed, b);
      AllNonEmptyAppend(st.pushed, b);
      PushKeepsBuffer(a, st.writer, st.table, st.pushed, st.totalBytes, st.bufferBytes, b);
      FlattenAppend(st.pushed, [b]);
      assert Flatten([b]) == b;
    }
  }

  /** Appending a batch to the buffer and to the pushed batches, with its size,
      keeps the buffer accounting. */
  lemma PushKeepsBuffer<R, S>(a: Arrow<R, S>, writer: Option<ParquetFile<R, S>>, table: seq<seq<R>>,
                              pushed: seq<seq<R>>, totalBytes: int, bufferBytes: int, b: seq<R>)
    requires BufferOk(a, writer, table, pushed, totalBytes, bufferBytes)
    ensures BufferOk(a, writer, table + [b], pushed + [b], totalBytes, bufferBytes + a.batchBytes(b))
  {
    SumAppend(a.batchBytes, table, [b]);
    assert pushed + [b] == Flatten(Tables(writer)) + (table + [b]);
  }

  /** Handing the buffer table to the writer keeps the invariant and the
      accepted records. */
  lemma {:induction false} WriteBufferKeepsInv<R, S>(a: Arrow<R, S>, given: Option<S>, p: WriterState<R, S>)
    requires Inv(a, given, p)
    ensures Inv(a, given, WriteBuffer(a, p))
    ensures var s := WriteBuffer(a, p);
      p.table != [] ==>
        && Tables(s.writer) == Tables(p.writer) + [p.table]
        && s.totalBytes == p.totalBytes + a.tableBytes(p.table)
        && s.table == [] && s.bufferBytes == 0
        && s.writer.value.schema == (if p.writer.Some? then p.writer.value.schema else p.schema)
  {
    if p.table != [] {
      var s := WriteBuffer(a, p);
      var old_ := Tables(p.writer);
      assert Tables(s.writer) == old_ + [p.table];
      assert p.pushed != [] by {
        assert p.pushed == Flatten(old_) + p.table;
      }
      FlattenAppend(old_, [p.table]);
      assert Flatten([p.table]) == p.table;
      SumAppend(a.tableBytes, old_, [p.table]);
      assert s.pushed == Flatten(Tables(s.writer)) + s.table;
      assert s.records == Flatten(s.pushed) + s.batch.rows;
      AllNonEmptyAppend(old_, p.table);
      assert s.bufferBytes == Sum(a.batchBytes, s.table);
      assert WriterOk(s.writer, s.schema, s.closed);
    }
  }

  /** `flush` keeps the invariant and the accepted records, and leaves the
      batch and the buffer empty: whatever was buffered (the partial batch
      included) is now the last written table. An open writer stays open with
      its schema. */
  lemma {:induction false} FlushKeepsInv<R, S>(a: Arrow<R, S>, given: Option<S>, batchSize: int, threshold: int,
                                               st: WriterState<R, S>)
    requires Inv(a, given, st)
    ensures var s := FlushState(a, st);
      && Inv(a, given, s)
      && Bounded(batchSize, threshold, s)
      && s.records == st.records && s.closed == st.closed
      && s.batch.rows == [] && s.table == [] && s.bufferBytes == 0
      && (st.schema.Some? ==> s.schema == st.schema)
      && (st.writer.Some? ==> s.writer.Some? && s.writer.value.schema == st.writer.value.schema)
  {
    PushKeepsInv(a, given, st);
    WriteBufferKeepsInv(a, given, PushState(a, st));
    assert PushState(a, st).table == [] ==> PushState(a, st).bufferBytes == 0;
  }

  /** `write` rejects a record exactly when the batch is strict and the record
      does not conform; otherwise it appends the record to the accepted ones,
      and afterwards the batch is below the batch size and the buffer within
      its threshold (or empty). */
  lemma {:induction false} WriteKeepsValid<R, S>(a: Arrow<R, S>, given: Option<S>, batchSize: int, threshold: int,
                                                 st: WriterState<R, S>, r: R)
    requires Inv(a, given, st) && Bounded(batchSize, threshold, st)
    ensures WriteState(a, batchSize, threshold, st, r).None? <==>
              st.batch.strict && !a.conforms(st.schema.value, r)
    ensures var w := WriteState(a, batchSize, threshold, st, r);
      w.Some? ==>
        && Inv(a, given, w.value)
        && Bounded(batchSize, threshold, w.value)
        && w.value.records == st.records + [r]
        && w.value.closed == st.closed
        && (st.schema.Some? ==> w.value.schema == st.schema)
        && (st.writer.Some? ==> w.value.writer.Some? && w.value.writer.value.schema == st.writer.value.schema)
  {
    if !Rejects(a, st, r) {
      var s1 := AppendRecord(st, r);
      AppendKeepsInv(a, given, st, r);
      PushKeepsInv(a, given, s1);
      var s2 := if |s1.batch.rows| >= batchSize then PushState(a, s1) else s1;
      assert Inv(a, given, s2) && s2.records == st.records + [r] && |s2.batch.rows| < Max(batchSize, 1);
      if s2.bufferBytes > threshold {
        FlushKeepsInv(a, given, batchSize, threshold, s2);
      }
    }
  }

  /** Appending an accepted record keeps the invariant. */
  lemma AppendKeepsInv<R, S>(a: Arrow<R, S>, given: Option<S>, st: WriterState<R, S>, r: R)
    requires Inv(a, given, st) && !Rejects(a, st, r)
    ensures Inv(a, given, AppendRecord(st, r))
  {
    var s := AppendRecord(st, r);
    assert s.records == Flatten(s.pushed) + s.batch.rows;
    assert s.batch.strict ==> Conforming(a, s.schema.value, s.batch.rows);
  }

  /** With additive table sizes, the bytes of the written tables are the bytes of their batches. */
  lemma {:induction false} WrittenBytes<R(!new), S>(a: Arrow<R, S>, written: seq<seq<seq<R>>>)
    requires Additive(a)
    ensures Sum(a.tableBytes, written) == Sum(a.batchBytes, Flatten(written))
  {
    if written != [] {
      WrittenBytes(a, written[1..]);
      SumAppend(a.batchBytes, written[0], Flatten(written[1..]));
    }
  }

  /** With additive table sizes, `total_bytes()` is the size of every batch pushed so far. */
  lemma {:induction false} TotalBytesIsPushedBytes<R(!new), S>(a: Arrow<R, S>, given: Option<S>, st: WriterState<R, S>)
    requires Inv(a, given, st) && Additive(a)
    ensures StateTotalBytes(st) == Sum(a.batchBytes, st.pushed)
  {
    WrittenBytes(a, Tables(st.writer));
    SumAppend(a.batchBytes, Flatten(Tables(st.writer)), st.table);
  }

  /** Neither `_push_batch` nor `flush` forgets a pushed batch. */
  lemma {:induction false} FlushExtendsPushed<R, S>(a: Arrow<R, S>, st: WriterState<R, S>)
    ensures |st.pushed| <= |PushState(a, st).pushed|
    ensures PushState(a, st).pushed[..|st.pushed|] == st.pushed
    ensures FlushState(a, st).pushed == PushState(a, st).pushed
  {
  }

  lemma {:induction false} SumPrefix<T>(f: T -> nat, s: seq<T>, k: nat)
    requires k <= |s|
    ensures Sum(f, s[..k]) <= Sum(f, s)
  {
    SumAppend(f, s[..k], s[k..]);
    assert s[..k] + s[k..] == s;
  }

  /** `total_bytes()` never decreases across `write`, given additive table sizes. */
  lemma {:induction false} WriteTotalBytesGrows<R(!new), S>(a: Arrow<R, S>, given: Option<S>, batchSize: int,
                                                            threshold: int, st: WriterState<R, S>, r: R)
    requires Inv(a, given, st) && Bounded(batchSize, threshold, st) && Additive(a)
    requires WriteState(a, batchSize, threshold, st, r).Some?
    ensures StateTotalBytes(WriteState(a, batchSize, threshold, st, r).value) >= StateTotalBytes(st)
  {
    var w := WriteState(a, batchSize, threshold, st, r).value;
    WriteKeepsValid(a, given, batchSize, threshold, st, r);
    TotalBytesIsPushedBytes(a, given, st);
    TotalBytesIsPushedBytes(a, given, w);
    var s1 := AppendRecord(st, r);
    var s2 := if |s1.batch.rows| >= batchSize then PushState(a, s1) else s1;
    FlushExtendsPushed(a, s1);
    FlushExtendsPushed(a, s2);
    assert w.pushed[..|st.pushed|] == st.pushed;
    SumPrefix(a.batchBytes, w.pushed, |st.pushed|);
  }

  /** `total_bytes()` never decreases across `flush`, given additive table sizes. */
  lemma {:induction false} FlushKeepsTotalBytes<R(!new), S>(a: Arrow<R, S>, given: Option<S>, st: WriterState<R, S>)
    requires Inv(a, given, st) && Additive(a)
    ensures StateTotalBytes(FlushState(a, st)) >= StateTotalBytes(st)
  {
    FlushKeepsInv(a, given, 0, 0, st);
    TotalBytesIsPushedBytes(a, given, st);
    TotalBytesIsPushedBytes(a, given, FlushState(a, st));
    FlushExtendsPushed(a, st);
    SumPrefix(a.batchBytes, FlushState(a, st).pushed, |st.pushed|);
  }

  /** After `close`, the written tables hold every accepted record in order and
      the writer, if one was opened, is closed; if no record was accepted, no
      writer was ever created. */
  lemma {:induction false} CloseWritesEverything<R, S>(a: Arrow<R, S>, given: Option<S>, st: WriterState<R, S>)
    requires Inv(a, given, st)
    ensures var c := CloseState(a, st);
      && Inv(a, given, c)
      && c.batch.rows == [] && c.table == [] && c.bufferBytes == 0
      && Flatten(Flatten(Tables(c.writer))) == st.records
      && (c.writer.Some? ==> c.writer.value.closed)
      && (st.records == [] ==> c.writer.None?)
  {
    FlushKeepsInv(a, given, 0, 0, st);
    var s := FlushState(a, st);
    assert Tables(CloseState(a, st).writer) == Tables(s.writer);
    assert s.pushed == Flatten(Tables(s.writer));
    assert s.records == Flatten(s.pushed);
    if s.writer.Some? {
      FlattenNonEmpty(Tables(s.writer));
      FlattenNonEmpty(s.pushed);
    }
  }

  // ---------------------------------------------------------------------------
  // The writer object

  class BufferedParquetWriter<R(!new), S> {
    const arrow: Arrow<R, S>
    const givenSchema: Option<S>       // self.schema
    const batchSize: int               // self.batch_size
    const bufferSizeBytes: int         // self._buffer_size_bytes

    var batch: RecordBatch<R>          // self._batch
    var table: seq<seq<R>>             // self._table as its batches; [] stands for None
    var schema: Option<S>              // self._schema
    var writer: Option<ParquetFile<R, S>>  // self._writer
    var totalBytes: int                // self._total_bytes
    var bufferBytes: int               // self._buffer_bytes

    ghost var records: seq<R>          // every record `write` accepted, in order
    ghost var pushed: seq<seq<R>>      // every batch pushed onto the buffer, in order
    ghost var closed: bool             // `close` has been called

    ghost function State(): WriterState<R, S>
      reads this
    {
      WriterState(batch, table, schema, writer, totalBytes, bufferBytes, records, pushed, closed)
    }

    ghost predicate Valid()
      reads this
    {
      Inv(arrow, givenSchema, State()) && Bounded(batchSize, bufferSizeBytes, State())
    }

    /** `__init__`: no writer, an empty batch (strict iff a schema was given),
        no buffer, both byte counters at zero. */
    constructor (arrow: Arrow<R, S>, schema: Option<S> := None,
                 bufferSize: BufferSize := SizeString("64 MiB"), batchSize: int := 256)
      ensures Valid() && !closed
      ensures this.arrow == arrow && givenSchema == schema && this.batchSize == batchSize
      ensures bufferSizeBytes == Threshold(arrow, bufferSize)
      ensures State() == InitialState(schema)
    {
      this.arrow := arrow;
      givenSchema := schema;
      this.batchSize := batchSize;
      bufferSizeBytes := Threshold(arrow, bufferSize);
      batch := RecordBatch([], schema.Some?);
      table := [];
      this.schema := schema;
      writer := None;
      totalBytes := 0;
      bufferBytes := 0;
      records := [];
      pushed := [];
      closed := false;
      new;
      InitialStateValid<R, S>(arrow, schema, batchSize, Threshold(arrow, bufferSize));
    }

    /** `total_bytes()`: bytes written plus bytes buffered. When table sizes are
        additive, this is the size of every batch pushed so far. */
    function TotalBytes(): (r: int)
      reads this
      requires Inv(arrow, givenSchema, State())
      ensures Additive(arrow) ==> r == Sum(arrow.batchBytes, pushed)
    {
      TotalBytesLemma();
      totalBytes + bufferBytes
    }

    lemma TotalBytesLemma()
      requires Inv(arrow, givenSchema, State())
      ensures Additive(arrow) ==> totalBytes + bufferBytes == Sum(arrow.batchBytes, pushed)
    {
      if Additive(arrow) {
        TotalBytesIsPushedBytes(arrow, givenSchema, State());
      }
    }

    /** `_push_batch`: move a non-empty batch to the end of the buffer table. */
    method PushBatch()
      modifies this
      ensures State() == PushState(arrow, old(State()))
    {
      if |batch.rows| > 0 {
        if schema.None? {
          schema := Some(arrow.inferSchema(batch.rows));
        }
        table, bufferBytes, pushed := table + [batch.rows], bufferBytes + arrow.batchBytes(batch.rows), pushed + [batch.rows];
        batch := RecordBatch([], true);
      }
    }

    /** `flush`: push the partial batch, then hand the whole buffer table to the
        writer, opening it on first use with the fixed schema. */
    method Flush()
      modifies this
      ensures State() == FlushState(arrow, old(State()))
      ensures batch.rows == [] && table == [] && records == old(records)
      ensures old(Valid()) ==> Valid()
    {
      if Valid() {
        FlushKeepsInv(arrow, givenSchema, batchSize, bufferSizeBytes, State());
      }
      PushBatch();
      if table != [] {
        if writer.None? {
          writer := Some(ParquetFile(schema, [], false));
        }
        writer := Some(writer.value.(tables := writer.value.tables + [table]));
        totalBytes := totalBytes + arrow.tableBytes(table);
        table, bufferBytes := [], 0;
      }
    }

    /** `write` (also `__call__`): append a record, push a full batch, flush a
        buffer past its threshold. A strict batch rejects a record that does not
        conform to the fixed schema, and then nothing changes. */
    method Write(r: R) returns (ok: bool)
      requires Valid() && !closed
      modifies this
      ensures ok == WriteState(arrow, batchSize, bufferSizeBytes, old(State()), r).Some?
      ensures State() == if ok then WriteState(arrow, batchSize, bufferSizeBytes, old(State()), r).value
                         else old(State())
      ensures Valid() && !closed
      ensures ok <==> !old(batch.strict) || arrow.conforms(old(schema).value, r)
      ensures ok ==> records == old(records) + [r]
      ensures old(schema).Some? ==> schema == old(schema)
      ensures Additive(arrow) ==> TotalBytes() >= old(TotalBytes())
    {
      WriteKeepsValid(arrow, givenSchema, batchSize, bufferSizeBytes, State(), r);
      if Additive(arrow) && !Rejects(arrow, State(), r) {
        WriteTotalBytesGrows(arrow, givenSchema, batchSize, bufferSizeBytes, State(), r);
      }
      if batch.strict && !arrow.conforms(schema.value, r) {
        ok := false;
        return;
      }
      ok := true;
      Accept(r);
    }

    /** The accepting half of `write`: append the record, push the batch once
        it is full, flush the buffer once it is past the threshold. */
    method Accept(r: R)
      requires !Rejects(arrow, State(), r)
      modifies this
      ensures State() == WriteState(arrow, batchSize, bufferSizeBytes, old(State()), r).value
    {
      ghost var s0 := State();
      batch, records := batch.(rows := batch.rows + [r]), records + [r];
      ghost var s1 := State();
      assert s1 == AppendRecord(s0, r);
      if |batch.rows| >= batchSize {
        PushBatch();
      }
      ghost var s2 := State();
      assert s2 == if |s1.batch.rows| >= batchSize then PushState(arrow, s1) else s1;
      if bufferBytes > bufferSizeBytes {
        Flush();
      }
    }

    /** `close` (also `__exit__`): a final flush, then close the writer if one
        was ever opened. */
    method Close()
      requires Inv(arrow, givenSchema, State())
      modifies this
      ensures State() == CloseState(arrow, old(State()))
      ensures Valid() && closed
    {
      CloseWritesEverything(arrow, givenSchema, State());
      Flush();
      ghost var s := State();
      closed := true;
      if writer.Some? {
        writer := Some(writer.value.(closed := true));
      }
      assert State() == s.(closed := true, writer := if s.writer.Some? then Some(s.writer.value.(closed := true)) else None);
    }
  }
}
