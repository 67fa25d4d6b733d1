// Table data of a PostgreSQL backup: cut into slice records when it is written,
// fed into COPY sessions when it is restored.
module CopyRestore {
  import opened Wrappers
  import opened Codecs
  import opened StreamFormat
  import opened TextTools
  import Chunker
  import D = StreamDecoder

  const SUB_CHUNK := 1024 * 1024

  // ------------------------------------------------------------- backup

  // One table: its schema, data slices numbered from 1, and an empty marker.
  ghost predicate TableShape(records: seq<Record>, schema: string, table: string) {
    && |records| >= 2 && records[0].SchemaRecord?
    && (forall i :: 1 <= i < |records| - 1 ==> DataSliceAt(records[i], schema, table, i))
    && records[|records| - 1] == SliceRecord(DataSlice(schema, table, |records| - 1, true, []))
  }

  predicate DataSliceAt(r: Record, schema: string, table: string, number: nat) {
    && r.SliceRecord? && r.slice.schemaName == schema && r.slice.tableName == table
    && r.slice.sliceSeq == number && !r.slice.isLast && 0 < |r.slice.data| <= 1024 * 1024
  }

  function Payloads(records: seq<Record>): bytes {
    if records == [] then []
    else (if records[0].SliceRecord? then records[0].slice.data else []) + Payloads(records[1..])
  }

  lemma {:induction false} PayloadsAppend(a: seq<Record>, b: seq<Record>)
    ensures Payloads(a + b) == Payloads(a) + Payloads(b)
  {
    if a == [] {
      assert a + b == b;
    } else {
      PayloadsAppend(a[1..], b);
      assert (a + b)[1..] == a[1..] + b;
    }
  }

  // The records of a table hold exactly the bytes COPY put out, in order.
  method BackupTable(schema: string, table: string, columns: seq<ColumnMeta>, createSql: string, copyOut: seq<bytes>)
    returns (records: seq<Record>)
    ensures TableShape(records, schema, table) && records[0] == SchemaRecord(schema, table, columns, createSql)
    ensures Payloads(records) == Flatten(copyOut)
  {
    hide Flatten, Cut, Chunker.Split, Payloads;
    var sliceSeq := 0;
    var head := SchemaRecord(schema, table, columns, createSql);
    records := [head];
    CutStart(schema, table, head);
    for n := 0 to |copyOut|
      invariant Cut(records, schema, table, head, Flatten(copyOut[..n])) && |records| == sliceSeq + 1
    {
      var pieces := Chunker.Split(copyOut[n], SUB_CHUNK);
      Chunker.SplitShape(copyOut[n], SUB_CHUNK);
      ghost var done := Flatten(copyOut[..n]);
      FlattenNone(done);
      for k := 0 to |pieces|
        invariant Cut(records, schema, table, head, done + Flatten(pieces[..k])) && |records| == sliceSeq + 1
      {
        sliceSeq := sliceSeq + 1;
        var r := SliceRecord(DataSlice(schema, table, sliceSeq, false, pieces[k]));
        CutStep(records, schema, table, head, done + Flatten(pieces[..k]), r);
        OnePieceMore(done, pieces, k);
        records := records + [r];
      }
      assert pieces[..|pieces|] == pieces;
      OnePieceMore([], copyOut, n);
    }
    assert copyOut[..|copyOut|] == copyOut;
    var marker := SliceRecord(DataSlice(schema, table, sliceSeq + 1, true, []));
    CutEnds(records, schema, table, head, Flatten(copyOut), marker);
    records := records + [marker];
  }

  lemma OnePieceMore(done: bytes, pieces: seq<bytes>, k: nat)
    requires k < |pieces|
    ensures done + Flatten(pieces[..k]) + pieces[k] == done + Flatten(pieces[..k + 1])
    ensures Flatten(pieces[..k]) + pieces[k] == Flatten(pieces[..k + 1])
  {
    assert pieces[..k + 1] == pieces[..k] + [pieces[k]];
    FlattenSnoc(pieces[..k], pieces[k]);
  }

  lemma CutEnds(records: seq<Record>, schema: string, table: string, head: Record, content: bytes, marker: Record)
    requires head.SchemaRecord? && Cut(records, schema, table, head, content)
    requires marker == SliceRecord(DataSlice(schema, table, |records|, true, []))
    ensures TableShape(records + [marker], schema, table) && Payloads(records + [marker]) == content
    ensures (records + [marker])[0] == head
  {
    hide Payloads, DataSliceAt;
    PayloadsSnoc(records, marker);
  }

  // A table's records so far: the schema and numbered slices with this content.
  ghost predicate Cut(records: seq<Record>, schema: string, table: string, head: Record, content: bytes) {
    && records != [] && records[0] == head && Payloads(records) == content
    && forall i :: 1 <= i < |records| ==> DataSliceAt(records[i], schema, table, i)
  }

  lemma CutStart(schema: string, table: string, head: Record)
    requires !head.SliceRecord?
    ensures Cut([head], schema, table, head, Flatten([]))
  {
  }

  lemma FlattenNone(done: bytes)
    ensures done + Flatten([]) == done
  {
  }

  lemma CutStep(records: seq<Record>, schema: string, table: string, head: Record, content: bytes, r: Record)
    requires Cut(records, schema, table, head, content) && DataSliceAt(r, schema, table, |records|)
    ensures Cut(records + [r], schema, table, head, content + r.slice.data)
  {
    PayloadsSnoc(records, r);
  }

  lemma PayloadsSnoc(records: seq<Record>, r: Record)
    requires r.SliceRecord?
    ensures Payloads(records + [r]) == Payloads(records) + r.slice.data
  {
    PayloadsAppend(records, [r]);
    assert Payloads([r]) == r.slice.data + Payloads([]);
  }

  // ------------------------------------------------------------- restore

  // One COPY ... FROM STDIN session.
  datatype Sink = Sink(id: nat, schema: string, table: string)

  // Calls whose failure is ignored.
  datatype Attempt = DropTable(schema: string, table: string) | CreateSequence(sql: string) | Rollback

  // What the target database is asked to do.
  datatype Event =
    | Opened(sink: Sink)
    | Fed(sink: Sink, data: bytes)
    | Finished(sink: Sink)
    | Statement(record: Record)
    | Tried(attempt: Attempt)
    | Begin
    | Commit

  // `sequenceFor` is the statement for the sequence that a column default in a
  // schema refers to, if it does.
  datatype Options = Options(dropExisting: bool,
                             singleTransaction: bool, sequenceFor: (string, string) -> Option<string>)

  datatype Progress = Progress(events: seq<Event>, active: Option<Sink>, sessions: nat)

  predicate For(active: Option<Sink>, d: DataSlice) {
    active.Some? && active.value.schema == d.schemaName && active.value.table == d.tableName
  }

  function Closed(p: Progress): Progress {
    if p.active.Some? then Progress(p.events + [Finished(p.active.value)], None, p.sessions) else p
  }

  // A sink for the slice's table: kept, or opened unless the slice is the last.
  function WithSink(p: Progress, d: DataSlice): Progress {
    if For(p.active, d) then p
    else if d.isLast then Closed(p)
    else
      var sink := Sink(p.sessions, d.schemaName, d.tableName);
      Progress(Closed(p).events + [Opened(sink)], Some(sink), p.sessions + 1)
  }

  function WithData(p: Progress, d: DataSlice): Progress {
    if p.active.Some? && d.data != [] then p.(events := p.events + [Fed(p.active.value, d.data)]) else p
  }

  function OnSlice(p: Progress, d: DataSlice): Progress {
    var fed := WithData(WithSink(p, d), d);
    if d.isLast then Closed(fed) else fed
  }

  // CREATE SCHEMA of a schema that PostgreSQL reserves is passed over.
  predicate Reserved(r: Record) {
    && r.PreDataRecord? && "CREATE SCHEMA" <= Upper(Trim(r.sql))
    && ("pg_" <= r.name || "\"pg_" <= r.name || Contains(r.name, "pg_temp") || Contains(r.name, "pg_toast"))
  }

  predicate Silent(r: Record) {
    r.HeaderRecord? || Reserved(r)
  }

  // The sequences that column defaults need are created ahead of the table.
  function Sequences(o: Options, schema: string, columns: seq<ColumnMeta>): seq<Event> {
    if columns == [] then []
    else Sequences(o, schema, columns[..|columns| - 1]) + SequenceOf(o, schema, columns[|columns| - 1])
  }

  function SequenceOf(o: Options, schema: string, column: ColumnMeta): seq<Event> {
    if column.defaultVal.None? then []
    else match o.sequenceFor(column.defaultVal.value, schema)
      case None => []
      case Some(sql) => [Tried(CreateSequence(sql))]
  }

  // What is tried ahead of a record's own statement.
  function Prelude(o: Options, r: Record): seq<Event> {
    if !r.SchemaRecord? then []
    else (if o.dropExisting then [Tried(DropTable(r.schemaName, r.tableName))] else [])
         + Sequences(o, r.schemaName, r.columns)
  }

  function Statements(o: Options, r: Record): seq<Event> {
    Prelude(o, r) + [Statement(r)]
  }

  function Step(o: Options, p: Progress, r: Record): Progress {
    if r.SliceRecord? then OnSlice(p, r.slice)
    else if Silent(r) then p
    else p.(events := p.events + Statements(o, r))
  }

  function Start(o: Options): Progress {
    Progress(if o.singleTransaction then [Begin] else [], None, 0)
  }

  function After(o: Options, records: seq<Record>): Progress {
    if records == [] then Start(o) else Step(o, After(o, records[..|records| - 1]), records[|records| - 1])
  }

  // The end of a restore that goes well.
  function Ending(o: Options): seq<Event> {
    if o.singleTransaction then [Commit] else []
  }

  // All that is asked of the database for the records read.
  function Whole(o: Options, records: seq<Record>): seq<Event> {
    Closed(After(o, records)).events + Ending(o)
  }

  predicate Accepted(r: Record) {
    r.HeaderRecord? ==> r.header.engine == "postgresql"
  }

  // What the loop reads of the decoded records.
  function BeforeTrailer(records: seq<Record>): (read: seq<Record>)
    ensures read <= records
  {
    if records == [] || records[0].TrailerRecord? then [] else [records[0]] + BeforeTrailer(records[1..])
  }

  lemma {:induction false} StopsAt(records: seq<Record>, n: nat)
    requires n <= |records| && (forall i :: 0 <= i < n ==> !records[i].TrailerRecord?)
    requires n == |records| || records[n].TrailerRecord?
    ensures BeforeTrailer(records) == records[..n]
  {
    if n == 0 {
    } else {
      StopsAt(records[1..], n - 1);
      assert records[..n] == [records[0]] + records[1..][..n - 1];
    }
  }

  lemma {:induction false} ReadSoFar(records: seq<Record>, n: nat)
    requires n <= |records| && forall i :: 0 <= i < n ==> !records[i].TrailerRecord?
    ensures records[..n] <= BeforeTrailer(records)
  {
    if n == 0 {
    } else {
      ReadSoFar(records[1..], n - 1);
      assert records[..n] == [records[0]] + records[1..][..n - 1];
    }
  }

  // Steps only add to what the database is asked.
  lemma StepExtends(o: Options, p: Progress, r: Record)
    ensures p.events <= Step(o, p, r).events
  {
    hide Statements;
    if r.SliceRecord? {
      SliceGrows(p, r.slice);
    }
  }

  lemma ClosedExtends(p: Progress)
    ensures p.events <= Closed(p).events
  {
  }

  lemma {:induction false} AfterExtends(o: Options, records: seq<Record>, n: nat)
    requires n <= |records|
    ensures After(o, records[..n]).events <= After(o, records).events <= Closed(After(o, records)).events
    decreases |records|
  {
    hide Step, Closed;
    ClosedExtends(After(o, records));
    if n == |records| {
      assert records[..n] == records;
    } else {
      var last := |records| - 1;
      AfterExtends(o, records[..last], n);
      assert records[..last][..n] == records[..n];
      StepExtends(o, After(o, records[..last]), records[last]);
    }
  }

  // The restore loop over what the decoder reads. `fails` says which of the calls
  // to the target database fail; a failed call has no effect.
  class Restorer {
    const o: Options
    const fails: nat -> bool
    var events: seq<Event>
    var active: Option<Sink>
    var sessions: nat

    function State(): Progress
      reads this
    {
      Progress(events, active, sessions)
    }

    constructor (o: Options, fails: nat -> bool)
      ensures events == [] && active == None && sessions == 0 && this.o == o && this.fails == fails
    {
      this.o, this.fails := o, fails;
      events, active, sessions := [], None, 0;
    }

    // Of these calls, all from number `from` on go well that have to.
    ghost predicate Clear(full: seq<Event>, from: nat) {
      forall k :: from <= k < |full| && !full[k].Tried? ==> !fails(k)
    }

    // The calls so far are the beginning of these, up to a failure.
    ghost predicate Stopped(full: seq<Event>)
      reads this
    {
      events <= full && |events| < |full| && !full[|events|].Tried? && fails(|events|)
    }

    method Call(e: Event) returns (ok: bool)
      modifies this`events
      ensures ok == !fails(|old(events)|)
      ensures events == if ok then old(events) + [e] else old(events)
    {
      ok := !fails(|events|);
      if ok {
        events := events + [e];
      }
    }

    // let _ = client.batch_execute(..)
    method Try(attempt: Attempt)
      modifies this`events
      ensures events == old(events) + [Tried(attempt)]
    {
      events := events + [Tried(attempt)];
    }

    method Close() returns (ok: bool)
      modifies this
      ensures ok ==> State() == Closed(old(State())) && Clear(events, |old(events)|)
      ensures !ok ==> Stopped(Closed(old(State())).events)
      ensures old(events) <= events
    {
      ok := true;
      if active.Some? {
        ok := Call(Finished(active.value));
        active := None;
      }
    }

    method SetSink(d: DataSlice) returns (ok: bool)
      modifies this
      ensures ok ==> State() == WithSink(old(State()), d) && Clear(events, |old(events)|)
      ensures !ok ==> Stopped(WithSink(old(State()), d).events)
      ensures old(events) <= events
    {
      ok := true;
      if !For(active, d) {
        ok := Close();
        if ok && !d.isLast {
          var sink := Sink(sessions, d.schemaName, d.tableName);
          ok := Call(Opened(sink));
          if ok {
            active, sessions := Some(sink), sessions + 1;
          }
        }
      }
    }

    method TakeSlice(d: DataSlice) returns (ok: bool)
      modifies this
      ensures ok ==> State() == OnSlice(old(State()), d) && Clear(events, |old(events)|)
      ensures !ok ==> Stopped(OnSlice(old(State()), d).events)
      ensures old(events) <= events
    {
      ghost var p := State();
      SliceGrows(p, d);
      ok := SetSink(d);
      if ok && active.Some? && d.data != [] {
        ok := Call(Fed(active.value, d.data));
      }
      if ok && d.isLast {
        assert State() == WithData(WithSink(p, d), d);
        ok := Close();
      }
    }

    // What is tried ahead of a table.
    method Prepare(r: Record)
      requires r.SchemaRecord?
      modifies this`events
      ensures events == old(events) + Prelude(o, r)
    {
      hide Sequences;
      ghost var before := events;
      if o.dropExisting {
        Try(DropTable(r.schemaName, r.tableName));
      }
      ghost var dropped := events;
      SequencesNone(o, r.schemaName);
      for n := 0 to |r.columns|
        invariant events == dropped + Sequences(o, r.schemaName, r.columns[..n])
      {
        SequencesNext(o, r.schemaName, r.columns, n);
        var default := r.columns[n].defaultVal;
        if default.Some? {
          var sql := o.sequenceFor(default.value, r.schemaName);
          if sql.Some? {
            Try(CreateSequence(sql.value));
          }
        }
      }
      assert r.columns[..|r.columns|] == r.columns;
      assert events == before + Prelude(o, r);
    }

    method Execute(r: Record) returns (ok: bool)
      modifies this`events
      ensures ok ==> events == old(events) + Statements(o, r) && Clear(events, |old(events)|)
      ensures !ok ==> Stopped(old(events) + Statements(o, r))
      ensures old(events) <= events
    {
      PreludeTried(o, r);
      hide Prelude;
      if r.SchemaRecord? {
        Prepare(r);
      }
      ok := Call(Statement(r));
    }

    method Take(r: Record) returns (ok: bool)
      modifies this
      ensures ok ==> Accepted(r) && State() == Step(o, old(State()), r) && Clear(events, |old(events)|)
      ensures !ok ==> (!Accepted(r) && events == old(events)) || Stopped(Step(o, old(State()), r).events)
      ensures old(events) <= events
    {
      hide Statements;
      ok := true;
      if r.SliceRecord? {
        ok := TakeSlice(r.slice);
      } else if r.HeaderRecord? {
        ok := r.header.engine == "postgresql";
      } else if !Reserved(r) {
        ok := Execute(r);
      }
    }

    lemma StillStopped(part: seq<Event>, full: seq<Event>)
      requires Stopped(part) && part <= full
      ensures events <= full && !Clear(full, 0)
    {
      assert full[|events|] == part[|events|];
    }

    // Takes what the decoder reads, up to a trailer or the end, and closes a
    // session left open. What the decoder refuses, a header of another engine or
    // a failing call ends it.
    method Run(decoder: D.Decoder) returns (ok: bool)
      requires decoder.reader.Valid() && decoder.c.Lawful() && State() == Start(o) && Clear(events, 0)
      modifies this, decoder, decoder.reader
      ensures var (records, end) := D.ReadAll(decoder.c, old(decoder.View()));
              var read := BeforeTrailer(records);
              var full := Closed(After(o, read)).events;
              && events <= full && (!Arrived(records, end) ==> events <= After(o, read).events)
              && (ok ==> events == full && active.None?)
              && (ok <==> Arrived(records, end) && AllAccepted(read) && Clear(full, 0))
      ensures old(events) <= events
    {
      hide Step, Closed, After, BeforeTrailer, Accepted, D.ReadAll, D.Next, Start,
           D.Pending, D.Reader.Rest, D.Reader.Valid;
      ghost var whole := D.ReadAll(decoder.c, decoder.View());
      ghost var seen: seq<Record> := [];
      AtStart(o, decoder.c, decoder.View());
      var more := true;
      while more
        invariant decoder.reader.Valid()
        invariant if more then Reading(decoder.c, whole, seen, decoder.View()) else Ended(whole, seen)
        invariant State() == After(o, seen) && Clear(events, 0) && AllAccepted(seen)
        invariant old(events) <= events
        decreases more, |decoder.reader.Rest()|
      {
        ghost var before := decoder.View();
        var next := decoder.ReadNextRecord();
        NextSeen(decoder.c, whole, seen, before, decoder.View(), next);
        if next.Failure? {
          Refused(o, whole, seen);
          return false;
        } else if next.value.None? || next.value.value.TrailerRecord? {
          more := false;
        } else {
          var r := next.value.value;
          ReadFurther(o, decoder.c, whole, seen, r, decoder.View());
          ghost var full := Closed(After(o, BeforeTrailer(whole.0))).events;
          ok := Take(r);
          if !ok {
            assert !AllAccepted(BeforeTrailer(whole.0)) || !Clear(full, 0) by {
              if Accepted(r) {
                StillStopped(After(o, seen + [r]).events, full);
              } else {
                assert !Accepted(BeforeTrailer(whole.0)[|seen|]);
              }
            }
            assert events <= After(o, BeforeTrailer(whole.0)).events <= full;
            return;
          }
          seen := seen + [r];
        }
      }
      EndReached(o, whole, seen);
      ghost var before := events;
      ok := Close();
      if ok {
        assert forall k :: 0 <= k < |before| ==> events[k] == before[k];
      } else {
        StillStopped(Closed(After(o, seen)).events, Closed(After(o, seen)).events);
      }
    }

    // The whole command: in a single transaction when that is asked for, which is
    // committed at the end or else rolled back. `asked` is what was called before
    // a rollback.
    method Restore(decoder: D.Decoder) returns (ok: bool, ghost asked: seq<Event>, ghost rolledBack: bool)
      requires decoder.reader.Valid() && decoder.c.Lawful()
      requires events == [] && active == None && sessions == 0
      modifies this, decoder, decoder.reader
      ensures var (records, end) := D.ReadAll(decoder.c, old(decoder.View()));
              var read := BeforeTrailer(records);
              var full := Whole(o, read);
              && asked <= full && events == asked + (if rolledBack then [Tried(Rollback)] else [])
              && (!Arrived(records, end) ==> asked <= After(o, read).events)
              && (ok ==> asked == full && active.None?)
              && (Commit in events <==> ok && o.singleTransaction)
              && (ok <==> Arrived(records, end) && AllAccepted(read) && Clear(full, 0))
              && (rolledBack ==> !ok && o.singleTransaction && asked != [] && asked[0] == Begin)
              && (o.singleTransaction && !ok && 0 < |asked| < |full| - 1 ==> rolledBack)
    {
      hide Closed, After, BeforeTrailer, AllAccepted, Arrived, Accepted, Whole, Start, Ending,
           D.ReadAll, D.Reader.Rest, D.Reader.Valid;
      ghost var read := BeforeTrailer(D.ReadAll(decoder.c, decoder.View()).0);
      ghost var body, full := Closed(After(o, read)).events, Whole(o, read);
      WholeSplits(o, read);
      NoCommitYet(o, read);
      rolledBack, asked := false, [];
      ok := BeginTransaction();
      if !ok {
        StillStopped(Start(o).events, full);
        return;
      }
      ok := Run(decoder);
      asked := events;
      if ok {
        ok := EndTransaction();
        asked := events;
        if !ok {
          StillStopped(full, full);
        }
      } else {
        if Clear(full, 0) {
          ClearSoFar(body, full);
        }
        if o.singleTransaction {
          Try(Rollback);
          rolledBack := true;
        }
      }
    }

    method BeginTransaction() returns (ok: bool)
      requires State() == Progress([], None, 0)
      modifies this`events
      ensures ok ==> State() == Start(o) && Clear(events, 0) && (o.singleTransaction ==> events == [Begin])
      ensures !ok ==> events == [] && Stopped(Start(o).events)
    {
      ok := true;
      if o.singleTransaction {
        ok := Call(Begin);
      }
    }

    method EndTransaction() returns (ok: bool)
      modifies this`events
      ensures ok ==> events == old(events) + Ending(o) && (Clear(old(events), 0) ==> Clear(events, 0))
      ensures !ok ==> events == old(events) && o.singleTransaction && Stopped(old(events) + Ending(o))
    {
      ok := true;
      if o.singleTransaction {
        ok := Call(Commit);
      }
    }

    lemma ClearSoFar(part: seq<Event>, full: seq<Event>)
      requires part <= full && Clear(full, 0)
      ensures Clear(part, 0)
    {
      forall k | 0 <= k < |part| && !part[k].Tried? ensures !fails(k) {
        assert full[k] == part[k];
      }
    }
  }

  lemma SequencesNone(o: Options, schema: string)
    ensures Sequences(o, schema, []) == []
  {
  }

  lemma SequencesNext(o: Options, schema: string, columns: seq<ColumnMeta>, n: nat)
    requires n < |columns|
    ensures Sequences(o, schema, columns[..n + 1])
            == Sequences(o, schema, columns[..n]) + SequenceOf(o, schema, columns[n])
  {
    assert columns[..n + 1][..n] == columns[..n];
  }

  lemma {:induction false} SequencesTried(o: Options, schema: string, columns: seq<ColumnMeta>)
    ensures forall i :: 0 <= i < |Sequences(o, schema, columns)| ==> Sequences(o, schema, columns)[i].Tried?
  {
    if columns == [] {
    } else {
      SequencesTried(o, schema, columns[..|columns| - 1]);
    }
  }

  lemma PreludeTried(o: Options, r: Record)
    ensures forall i :: 0 <= i < |Prelude(o, r)| ==> Prelude(o, r)[i].Tried?
    ensures !r.SchemaRecord? ==> Prelude(o, r) == []
  {
    if r.SchemaRecord? {
      SequencesTried(o, r.schemaName, r.columns);
    }
  }

  predicate AllAccepted(records: seq<Record>) {
    forall i :: 0 <= i < |records| ==> Accepted(records[i])
  }

  // The loop came to a trailer, or to the end without an error.
  predicate Arrived(records: seq<Record>, end: Result<D.State, Error>) {
    end.Success? || exists i :: 0 <= i < |records| && records[i].TrailerRecord?
  }

  predicate NoTrailer(records: seq<Record>) {
    forall i :: 0 <= i < |records| ==> !records[i].TrailerRecord?
  }

  ghost predicate Reading(c: StreamCodec, whole: (seq<Record>, Result<D.State, Error>), seen: seq<Record>, s: D.State) {
    NoTrailer(seen) && D.Pending(c, whole, seen, s, true)
  }

  ghost predicate Ended(whole: (seq<Record>, Result<D.State, Error>), seen: seq<Record>) {
    Arrived(whole.0, whole.1) && BeforeTrailer(whole.0) == seen
  }

  lemma AtStart(o: Options, c: StreamCodec, s: D.State)
    ensures After(o, []) == Start(o) && Reading(c, D.ReadAll(c, s), [], s)
  {
    hide D.ReadAll;
    assert [] + D.ReadAll(c, s).0 == D.ReadAll(c, s).0;
  }

  lemma NextSeen(c: StreamCodec, whole: (seq<Record>, Result<D.State, Error>), seen: seq<Record>, s: D.State,
                 after: D.State, next: Result<Option<Record>, Error>)
    requires Reading(c, whole, seen, s) && (after, next) == D.Next(c, s)
    ensures next.Failure? ==> whole == (seen, Failure(next.error)) && NoTrailer(seen)
    ensures next.Success? && (next.value.None? || next.value.value.TrailerRecord?) ==> Ended(whole, seen)
    ensures next.Success? && next.value.Some? && !next.value.value.TrailerRecord? ==>
              Reading(c, whole, seen + [next.value.value], after) && |after.rest| < |s.rest|
  {
    D.PendingStep(c, whole, seen, s, after, next);
    hide D.Next, D.ReadAll, BeforeTrailer;
    if next.Success? {
      if next.value.None? {
        StopsAt(seen, |seen|);
        assert seen[..|seen|] == seen;
      } else if next.value.value.TrailerRecord? {
        assert whole.0[|seen|] == next.value.value;
        StopsAt(whole.0, |seen|);
        assert whole.0[..|seen|] == seen;
      }
    }
  }

  // The decoder failed before any trailer.
  lemma Refused(o: Options, whole: (seq<Record>, Result<D.State, Error>), seen: seq<Record>)
    requires NoTrailer(seen) && whole.0 == seen && whole.1.Failure?
    ensures !Arrived(whole.0, whole.1)
    ensures After(o, seen).events == After(o, BeforeTrailer(whole.0)).events
    ensures After(o, seen).events <= Closed(After(o, BeforeTrailer(whole.0))).events
  {
    hide After, Closed;
    StopsAt(seen, |seen|);
    assert seen[..|seen|] == seen;
    ClosedExtends(After(o, seen));
  }

  lemma ReadFurther(o: Options, c: StreamCodec, whole: (seq<Record>, Result<D.State, Error>), seen: seq<Record>,
                    r: Record, s: D.State)
    requires Reading(c, whole, seen + [r], s)
    ensures var read := BeforeTrailer(whole.0);
            && |seen| < |read| && read[|seen|] == r && After(o, seen + [r]) == Step(o, After(o, seen), r)
            && After(o, seen).events <= After(o, read).events <= Closed(After(o, read)).events
            && After(o, seen + [r]).events <= After(o, read).events
  {
    hide D.ReadAll, BeforeTrailer, Step, Closed;
    var more, n := seen + [r], |seen|;
    assert whole.0[..n + 1] == more;
    ReadSoFar(whole.0, n + 1);
    var read := BeforeTrailer(whole.0);
    assert read[..n + 1] == more && read[..n] == seen && more[..n] == seen;
    assert After(o, more) == Step(o, After(o, seen), r);
    hide After;
    AfterExtends(o, read, n);
    AfterExtends(o, read, n + 1);
  }

  lemma EndReached(o: Options, whole: (seq<Record>, Result<D.State, Error>), seen: seq<Record>)
    requires Ended(whole, seen)
    ensures BeforeTrailer(whole.0) == seen && Arrived(whole.0, whole.1) && Closed(After(o, seen)).active.None?
    ensures After(o, seen).events <= Closed(After(o, seen)).events
  {
    hide After;
    ClosedExtends(After(o, seen));
  }

  lemma {:induction false} NoCommitYet(o: Options, read: seq<Record>)
    ensures Commit !in After(o, read).events && Commit !in Closed(After(o, read)).events
    ensures Commit in Whole(o, read) <==> o.singleTransaction
  {
    if read == [] {
    } else {
      var n := |read| - 1;
      NoCommitYet(o, read[..n]);
      StepCommitsNothing(o, After(o, read[..n]), read[n]);
    }
  }

  lemma StepCommitsNothing(o: Options, p: Progress, r: Record)
    requires Commit !in p.events
    ensures Commit !in Step(o, p, r).events
  {
    PreludeTried(o, r);
    hide Prelude;
  }

  lemma WholeSplits(o: Options, read: seq<Record>)
    ensures var body := Closed(After(o, read)).events;
            && Start(o).events <= body <= Whole(o, read) == body + Ending(o)
            && |Whole(o, read)| <= |body| + 1
  {
    AfterExtends(o, read, 0);
    assert read[..0] == [];
  }

  lemma SliceGrows(p: Progress, d: DataSlice)
    ensures p.events <= WithSink(p, d).events <= WithData(WithSink(p, d), d).events <= OnSlice(p, d).events
  {
  }
}
