// A MySQL table through backup and restore: rows in slices of 1000, restored by
// INSERT statements of 200 rows, one transaction for each slice.
module MysqlRows {
  import opened Wrappers
  import opened Codecs
  import opened StreamFormat
  import opened MysqlText
  import Chunker

  const SLICE_ROWS := 1000
  const INSERT_ROWS := 200

  // serde_json on a list of rows.
  datatype RowCodec = RowCodec(render: seq<Row> -> bytes, parse: bytes -> Option<seq<Row>>) {
    ghost predicate Lawful() {
      forall rows :: parse(render(rows)) == Some(rows) && render(rows) != []
    }
  }

  // ------------------------------------------------------------------ backup

  function SliceOf(codec: RowCodec, db: string, table: string, batches: seq<seq<Row>>, n: nat): Record
    requires n < |batches|
  {
    SliceRecord(DataSlice(db, table, n + 1, false, codec.render(batches[n])))
  }

  function TableSlices(codec: RowCodec, db: string, table: string, batches: seq<seq<Row>>): seq<Record> {
    DataSlices(codec, db, table, batches) + [SliceRecord(DataSlice(db, table, |batches| + 1, true, []))]
  }

  function DataSlices(codec: RowCodec, db: string, table: string, batches: seq<seq<Row>>): seq<Record> {
    seq(|batches|, n requires 0 <= n < |batches| => SliceOf(codec, db, table, batches, n))
  }

  // Full batches, and the rows of the next one.
  ghost predicate Batched(done: seq<seq<Row>>, batchRows: seq<Row>, rows: seq<Row>) {
    Chunker.AllFull(done, SLICE_ROWS) && Flatten(done) + batchRows == rows
  }

  lemma NothingBatched(codec: RowCodec, db: string, table: string, rows: seq<Row>)
    ensures Batched([], [], rows[..0]) && DataSlices(codec, db, table, []) == []
  {
  }

  lemma RowBatched(done: seq<seq<Row>>, batchRows: seq<Row>, rows: seq<Row>, n: nat)
    requires n < |rows| && Batched(done, batchRows, rows[..n])
    ensures Batched(done, batchRows + [rows[n]], rows[..n + 1])
  {
    hide Flatten;
    Regroup(Flatten(done), batchRows, [rows[n]]);
  }

  lemma BatchFull(done: seq<seq<Row>>, batchRows: seq<Row>, rows: seq<Row>)
    requires Batched(done, batchRows, rows) && |batchRows| == SLICE_ROWS
    ensures Batched(done + [batchRows], [], rows)
  {
    FlattenSnoc(done, batchRows);
  }

  lemma BatchesSplit(done: seq<seq<Row>>, batchRows: seq<Row>, rows: seq<Row>)
    requires Batched(done, batchRows, rows) && |batchRows| < SLICE_ROWS
    ensures Chunker.Split(rows, SLICE_ROWS) == if batchRows == [] then done else done + [batchRows]
  {
    Chunker.FullThenRest(done, batchRows, SLICE_ROWS);
  }

  lemma BatchJoins(codec: RowCodec, db: string, table: string, done: seq<seq<Row>>, batchRows: seq<Row>)
    ensures DataSlices(codec, db, table, done + [batchRows])
            == DataSlices(codec, db, table, done)
               + [SliceRecord(DataSlice(db, table, |done| + 1, false, codec.render(batchRows)))]
  {
    var more := done + [batchRows];
    assert SliceOf(codec, db, table, more, |done|)
        == SliceRecord(DataSlice(db, table, |done| + 1, false, codec.render(batchRows)));
    forall k | 0 <= k < |done| ensures SliceOf(codec, db, table, more, k) == SliceOf(codec, db, table, done, k) {
      assert more[k] == done[k];
    }
    hide SliceOf;
  }

  // Numbered from 1, each with its batch, the last empty and marked.
  predicate Numbered(codec: RowCodec, db: string, table: string, batches: seq<seq<Row>>, records: seq<Record>) {
    && |records| == |batches| + 1
    && forall n :: 0 <= n < |records| ==> records[n] == SliceRecord(
           DataSlice(db, table, n + 1, n == |batches|, if n < |batches| then codec.render(batches[n]) else []))
  }

  lemma SlicesRead(codec: RowCodec, db: string, table: string, batches: seq<seq<Row>>)
    ensures Numbered(codec, db, table, batches, TableSlices(codec, db, table, batches))
  {
  }

  lemma MarkerEnds(codec: RowCodec, db: string, table: string, batches: seq<seq<Row>>)
    ensures TableSlices(codec, db, table, batches)
            == DataSlices(codec, db, table, batches) + [SliceRecord(DataSlice(db, table, |batches| + 1, true, []))]
  {
  }

  // The rows leave in full slices of 1000, the last possibly shorter, then an
  // empty marker.
  method BackupRows(codec: RowCodec, db: string, table: string, rows: seq<Row>) returns (records: seq<Record>)
    ensures records == TableSlices(codec, db, table, Chunker.Split(rows, 1000))
    ensures Numbered(codec, db, table, Chunker.Split(rows, 1000), records)
  {
    SlicesRead(codec, db, table, Chunker.Split(rows, 1000));
    hide TableSlices, Numbered;
    hide Chunker.Split, DataSlices, Batched;
    records := [];
    var batchRows: seq<Row> := [];
    var sliceSeq := 0;
    ghost var done: seq<seq<Row>> := [];
    NothingBatched(codec, db, table, rows);
    for n := 0 to |rows|
      invariant sliceSeq == |done| && |batchRows| < SLICE_ROWS
      invariant Batched(done, batchRows, rows[..n]) && records == DataSlices(codec, db, table, done)
    {
      RowBatched(done, batchRows, rows, n);
      batchRows := batchRows + [rows[n]];
      if |batchRows| >= SLICE_ROWS {
        BatchJoins(codec, db, table, done, batchRows);
        BatchFull(done, batchRows, rows[..n + 1]);
        sliceSeq := sliceSeq + 1;
        records := records + [SliceRecord(DataSlice(db, table, sliceSeq, false, codec.render(batchRows)))];
        done := done + [batchRows];
        batchRows := [];
      }
    }
    assert rows[..|rows|] == rows;
    BatchesSplit(done, batchRows, rows);
    if batchRows != [] {
      BatchJoins(codec, db, table, done, batchRows);
      sliceSeq := sliceSeq + 1;
      records := records + [SliceRecord(DataSlice(db, table, sliceSeq, false, codec.render(batchRows)))];
      done := done + [batchRows];
    }
    MarkerEnds(codec, db, table, done);
    records := records + [SliceRecord(DataSlice(db, table, sliceSeq + 1, true, []))];
  }

  // ------------------------------------------------------------------ server

  // The target server. It reads each INSERT by its own lexical rules; `fails`
  // says which of the queries sent to it fail, and those have no effect.
  class Server {
    var committed: seq<Insert>
    var pending: Option<seq<Insert>>
    var queries: nat
    const fails: nat -> bool

    constructor (fails: nat -> bool)
      ensures committed == [] && pending == None && queries == 0 && this.fails == fails
    {
      committed, pending, queries := [], None, 0;
      this.fails := fails;
    }

    method Begin() returns (ok: bool)
      modifies this
      ensures queries == old(queries) + 1 && ok == !fails(old(queries)) && committed == old(committed)
      ensures pending == if ok then Some([]) else old(pending)
    {
      ok := !fails(queries);
      queries := queries + 1;
      if ok {
        pending := Some([]);
      }
    }

    method Query(sql: string) returns (ok: bool)
      modifies this
      ensures queries == old(queries) + 1 && committed == old(committed)
      ensures ok == (!fails(old(queries)) && old(pending).Some? && ReadInsert(sql).Some?)
      ensures pending == if ok then Some(old(pending).value + [ReadInsert(sql).value]) else old(pending)
    {
      ok := !fails(queries) && pending.Some? && ReadInsert(sql).Some?;
      queries := queries + 1;
      if ok {
        pending := Some(pending.value + [ReadInsert(sql).value]);
      }
    }

    method Commit() returns (ok: bool)
      requires pending.Some?
      modifies this
      ensures queries == old(queries) + 1 && ok == !fails(old(queries))
      ensures committed == if ok then old(committed) + old(pending).value else old(committed)
      ensures pending == if ok then None else old(pending)
    {
      ok := !fails(queries);
      queries := queries + 1;
      if ok {
        committed := committed + pending.value;
        pending := None;
      }
    }

    // Whether or not the query fails, an open transaction is lost: either it is
    // rolled back now or when the connection goes.
    method Rollback()
      modifies this
      ensures queries == old(queries) + 1 && committed == old(committed) && pending == None
    {
      queries := queries + 1;
      pending := None;
    }
  }

  // ----------------------------------------------------------------- restore

  // The INSERTs of one slice.
  function Inserts(table: string, columns: seq<string>, rows: seq<Row>): seq<Insert> {
    InsertsOf(table, columns, Chunker.Split(rows, INSERT_ROWS))
  }

  function InsertsOf(table: string, columns: seq<string>, chunks: seq<seq<Row>>): seq<Insert> {
    seq(|chunks|, k requires 0 <= k < |chunks| => Insert(table, columns, chunks[k]))
  }

  // One data slice, in a transaction: all its rows or none.
  method RestoreSlice(codec: RowCodec, server: Server, columns: seq<string>, d: DataSlice) returns (ok: bool)
    requires codec.Lawful() && server.pending == None
    modifies server
    ensures server.pending == None
    ensures !ok ==> server.committed == old(server.committed)
    ensures ok ==> Parses(codec, d)
    ensures ok ==> server.committed
                   == old(server.committed)
                      + if d.data == [] then [] else Inserts(d.tableName, columns, codec.parse(d.data).value)
    ensures (forall n :: !server.fails(n)) && Parses(codec, d) ==> ok
  {
    hide ReadInsert, InsertSql, Chunker.Split, Chunker.FixedSize;
    if d.data == [] {
      return true;
    }
    var parsed := codec.parse(d.data);
    if parsed.None? {
      return false;
    }
    ok := server.Begin();
    if !ok {
      return;
    }
    var chunks := Chunker.Split(parsed.value, INSERT_ROWS);
    NonEmptyChunks(parsed.value);
    for k := 0 to |chunks|
      invariant server.committed == old(server.committed)
      invariant server.pending == Some(InsertsOf(d.tableName, columns, chunks[..k]))
    {
      var sql := RenderInsert(d.tableName, columns, chunks[k]);
      assert chunks[k] in chunks;
      InsertReadsBack(d.tableName, columns, chunks[k]);
      InsertsSnoc(d.tableName, columns, chunks, k);
      ok := server.Query(sql);
      if !ok {
        server.Rollback();
        return;
      }
    }
    assert chunks[..|chunks|] == chunks;
    ok := server.Commit();
    if !ok {
      server.Rollback();
    }
  }

  lemma NonEmptyChunks(rows: seq<Row>)
    ensures forall chunk :: chunk in Chunker.Split(rows, INSERT_ROWS) ==> chunk != []
  {
  }

  lemma InsertsSnoc(table: string, columns: seq<string>, chunks: seq<seq<Row>>, k: nat)
    requires k < |chunks|
    ensures InsertsOf(table, columns, chunks[..k + 1])
            == InsertsOf(table, columns, chunks[..k]) + [Insert(table, columns, chunks[k])]
  {
  }

  lemma MapSnoc<A, B>(f: A -> B, s: seq<A>, n: nat)
    requires n < |s|
    ensures Map(f, s[..n + 1]) == Map(f, s[..n]) + [f(s[n])]
  {
  }

  method RenderInsert(table: string, columns: seq<string>, chunk: seq<Row>) returns (sql: string)
    ensures sql == InsertSql(table, columns, chunk)
  {
    var clauses: seq<string> := [];
    for n := 0 to |chunk|
      invariant clauses == Map(PrintRow, chunk[..n])
    {
      var values := RenderRow(chunk[n]);
      MapSnoc(PrintRow, chunk, n);
      assert "(" + Join(values) + ")" == PrintRow(chunk[n]);
      clauses := clauses + ["(" + Join(values) + ")"];
    }
    assert chunk[..|chunk|] == chunk;
    sql := InsertPrefix(table, columns) + " " + Join(clauses) + ";";
  }

  method RenderRow(row: Row) returns (values: seq<string>)
    ensures values == Map(PrintValue, row)
  {
    values := [];
    for n := 0 to |row|
      invariant values == Map(PrintValue, row[..n])
    {
      var value;
      match row[n] {
        case Text(s) => value := EscapeMysqlString(s);
        case Binary(b) => value := "X'" + Hex(b) + "'";
        case Null => value := "NULL";
      }
      MapSnoc(PrintValue, row, n);
      values := values + [value];
    }
    assert row[..|row|] == row;
  }

  predicate Parses(codec: RowCodec, d: DataSlice) {
    d.data != [] ==> codec.parse(d.data).Some?
  }

  // The slices of one table, in stream order; the first failure ends it.
  method RestoreTable(codec: RowCodec, server: Server, columns: seq<string>, slices: seq<Record>)
    returns (ok: bool, done: nat)
    requires codec.Lawful() && server.pending == None
    requires forall r :: r in slices ==> r.SliceRecord?
    modifies server
    ensures server.pending == None && done <= |slices| && (ok ==> done == |slices|)
    ensures server.committed == old(server.committed) + Restored(codec, columns, slices[..done])
    ensures (forall n :: !server.fails(n)) && (forall r :: r in slices ==> Parses(codec, r.slice)) ==> ok
  {
    hide Inserts, Restored, Contribution;
    done := 0;
    RestoredNothing(codec, columns);
    while done < |slices|
      invariant done <= |slices| && server.pending == None
      invariant server.committed == old(server.committed) + Restored(codec, columns, slices[..done])
    {
      assert slices[done] in slices;
      ok := RestoreSlice(codec, server, columns, slices[done].slice);
      if !ok {
        return;
      }
      RestoredSnoc(codec, columns, slices, done);
      done := done + 1;
    }
    ok := true;
  }

  ghost function Restored(codec: RowCodec, columns: seq<string>, slices: seq<Record>): seq<Insert> {
    if slices == [] then []
    else Restored(codec, columns, slices[..|slices| - 1]) + Contribution(codec, columns, slices[|slices| - 1])
  }

  lemma RestoredNothing(codec: RowCodec, columns: seq<string>)
    ensures Restored(codec, columns, []) == []
  {
  }

  lemma RestoredSnoc(codec: RowCodec, columns: seq<string>, slices: seq<Record>, n: nat)
    requires n < |slices| && slices[n].SliceRecord? && Parses(codec, slices[n].slice)
    ensures Restored(codec, columns, slices[..n + 1])
            == Restored(codec, columns, slices[..n])
               + if slices[n].slice.data == [] then []
                 else Inserts(slices[n].slice.tableName, columns, codec.parse(slices[n].slice.data).value)
  {
    RestoredOneMore(codec, columns, slices, n);
    hide Restored;
  }

  ghost function Contribution(codec: RowCodec, columns: seq<string>, r: Record): seq<Insert> {
    if r.SliceRecord? && r.slice.data != [] && codec.parse(r.slice.data).Some?
    then Inserts(r.slice.tableName, columns, codec.parse(r.slice.data).value)
    else []
  }

  // -------------------------------------------------------------- end to end

  function RowsOf(inserts: seq<Insert>): seq<Row> {
    if inserts == [] then [] else inserts[0].rows + RowsOf(inserts[1..])
  }

  lemma {:induction false} RowsAppend(a: seq<Insert>, b: seq<Insert>)
    ensures RowsOf(a + b) == RowsOf(a) + RowsOf(b)
  {
    if a == [] {
      assert a + b == b;
    } else {
      RowsAppend(a[1..], b);
      assert (a + b)[1..] == a[1..] + b;
      assert RowsOf(a + b) == a[0].rows + RowsOf(a[1..] + b);
    }
  }

  lemma {:induction false} InsertsHold(table: string, columns: seq<string>, chunks: seq<seq<Row>>)
    ensures RowsOf(InsertsOf(table, columns, chunks)) == Flatten(chunks)
  {
    if chunks == [] {
    } else {
      InsertsHold(table, columns, chunks[1..]);
      assert InsertsOf(table, columns, chunks)[1..] == InsertsOf(table, columns, chunks[1..]);
    }
  }

  // Where the INSERTs go, and how large they are.
  predicate Fitting(inserts: seq<Insert>, table: string, columns: seq<string>) {
    forall i :: 0 <= i < |inserts| ==>
      inserts[i].table == table && inserts[i].columns == columns && 0 < |inserts[i].rows| <= 200
  }

  lemma SliceHolds(codec: RowCodec, columns: seq<string>, db: string, table: string, batches: seq<seq<Row>>, n: nat)
    requires codec.Lawful() && n < |batches|
    ensures RowsOf(Contribution(codec, columns, SliceOf(codec, db, table, batches, n))) == batches[n]
    ensures Fitting(Contribution(codec, columns, SliceOf(codec, db, table, batches, n)), table, columns)
  {
    var chunks := Chunker.Split(batches[n], INSERT_ROWS);
    Chunker.SplitShape(batches[n], INSERT_ROWS);
    InsertsHold(table, columns, chunks);
  }

  lemma SliceAt(codec: RowCodec, db: string, table: string, batches: seq<seq<Row>>, n: nat)
    requires n < |batches|
    ensures |TableSlices(codec, db, table, batches)| == |batches| + 1
    ensures TableSlices(codec, db, table, batches)[n] == SliceOf(codec, db, table, batches, n)
  {
    hide SliceOf;
  }

  lemma NoSlices(codec: RowCodec, columns: seq<string>, table: string)
    ensures Restored(codec, columns, []) == [] && RowsOf([]) == Flatten([]) && Fitting([], table, columns)
  {
    hide Contribution;
  }

  lemma FittingAppend(a: seq<Insert>, b: seq<Insert>, table: string, columns: seq<string>)
    requires Fitting(a, table, columns) && Fitting(b, table, columns)
    ensures Fitting(a + b, table, columns)
  {
  }

  lemma RestoredOneMore(codec: RowCodec, columns: seq<string>, slices: seq<Record>, n: nat)
    requires n < |slices|
    ensures Restored(codec, columns, slices[..n + 1])
            == Restored(codec, columns, slices[..n]) + Contribution(codec, columns, slices[n])
  {
    hide Contribution;
    assert slices[..n + 1][..n] == slices[..n];
  }

  lemma {:induction false} SlicesHold(codec: RowCodec, columns: seq<string>, db: string, table: string,
                                      batches: seq<seq<Row>>, n: nat)
    requires codec.Lawful() && n <= |batches|
    ensures var restored := Restored(codec, columns, TableSlices(codec, db, table, batches)[..n]);
            RowsOf(restored) == Flatten(batches[..n]) && Fitting(restored, table, columns)
    decreases n
  {
    hide *;
    var slices := TableSlices(codec, db, table, batches);
    if n == 0 {
      NoSlices(codec, columns, table);
      assert slices[..0] == [] && batches[..0] == [];
    } else {
      SliceAt(codec, db, table, batches, n - 1);
      SlicesHold(codec, columns, db, table, batches, n - 1);
      SliceHolds(codec, columns, db, table, batches, n - 1);
      RestoredOneMore(codec, columns, slices, n - 1);
      var before, last := Restored(codec, columns, slices[..n - 1]), Contribution(codec, columns, slices[n - 1]);
      RowsAppend(before, last);
      FittingAppend(before, last, table, columns);
      assert batches[..n] == batches[..n - 1] + [batches[n - 1]];
      FlattenSnoc(batches[..n - 1], batches[n - 1]);
    }
  }

  // The rows of a table, through slices, INSERT text and the server's reader:
  // after all slices, exactly the rows in order; after a failure, exactly those
  // of the whole slices before it.
  lemma RowsComeBack(codec: RowCodec, columns: seq<string>, db: string, table: string, rows: seq<Row>, done: nat)
    requires codec.Lawful() && done <= |TableSlices(codec, db, table, Chunker.Split(rows, SLICE_ROWS))|
    ensures var batches := Chunker.Split(rows, SLICE_ROWS);
            var restored := Restored(codec, columns, TableSlices(codec, db, table, batches)[..done]);
            && Fitting(restored, table, columns)
            && (done >= |batches| ==> RowsOf(restored) == rows)
            && (done < |batches| ==> done * 1000 <= |rows| && RowsOf(restored) == rows[..done * 1000])
  {
    hide Restored, RowsOf, Fitting, Chunker.Split;
    var batches := Chunker.Split(rows, SLICE_ROWS);
    Chunker.SplitShape(rows, SLICE_ROWS);
    if done < |batches| {
      SlicesHold(codec, columns, db, table, batches, done);
      FullPrefix(batches, done);
    } else {
      SlicesHold(codec, columns, db, table, batches, |batches|);
      MarkerAddsNothing(codec, columns, db, table, batches, done);
      assert batches[..|batches|] == batches;
    }
  }

  lemma MarkerAddsNothing(codec: RowCodec, columns: seq<string>, db: string, table: string, batches: seq<seq<Row>>,
                          done: nat)
    requires |batches| <= done <= |TableSlices(codec, db, table, batches)|
    ensures var slices := TableSlices(codec, db, table, batches);
            Restored(codec, columns, slices[..done]) == Restored(codec, columns, slices[..|batches|])
  {
    hide SliceOf, Restored;
    var slices := TableSlices(codec, db, table, batches);
    if done > |batches| {
      assert slices[..done][..done - 1] == slices[..|batches|];
      assert Contribution(codec, columns, slices[|batches|]) == [];
      RestoredMarker(codec, columns, slices[..done]);
    }
  }

  lemma RestoredMarker(codec: RowCodec, columns: seq<string>, slices: seq<Record>)
    requires slices != [] && Contribution(codec, columns, slices[|slices| - 1]) == []
    ensures Restored(codec, columns, slices) == Restored(codec, columns, slices[..|slices| - 1])
  {
    hide Contribution;
  }

  lemma {:induction false} FullPrefix(batches: seq<seq<Row>>, done: nat)
    requires Chunker.FixedSize(batches, SLICE_ROWS) && done < |batches|
    ensures done * SLICE_ROWS <= |Flatten(batches)|
    ensures Flatten(batches[..done]) == Flatten(batches)[..done * SLICE_ROWS]
  {
    if done == 0 {
    } else {
      FullPrefix(batches[1..], done - 1);
      assert batches[..done][1..] == batches[1..][..done - 1];
      assert |batches[0]| == SLICE_ROWS;
    }
  }

  // Backup, then restore into a server without failures.
  method BackupAndRestore(codec: RowCodec, db: string, table: string, columns: seq<string>, rows: seq<Row>,
                          server: Server)
    returns (ok: bool)
    requires codec.Lawful() && server.pending == None && server.committed == []
    requires forall n :: !server.fails(n)
    modifies server
    ensures ok && RowsOf(server.committed) == rows && Fitting(server.committed, table, columns)
  {
    var records := BackupRows(codec, db, table, rows);
    forall r | r in records ensures r.SliceRecord? && Parses(codec, r.slice) {
    }
    var done;
    ok, done := RestoreTable(codec, server, columns, records);
    RowsComeBack(codec, columns, db, table, rows, done);
    assert server.committed == Restored(codec, columns, records[..done]);
    assert done == |Chunker.Split(rows, SLICE_ROWS)| + 1;
  }
}
