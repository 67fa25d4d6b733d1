// What restore makes of the slice records, for every record list and for the
// lists a backup writes.
module CopyTheorems {
  import opened Wrappers
  import opened Codecs
  import opened StreamFormat
  import opened CopyRestore

  ghost function Events(o: Options, records: seq<Record>): seq<Event> {
    Whole(o, records)
  }

  lemma AfterSnoc(o: Options, records: seq<Record>, r: Record)
    ensures After(o, records + [r]) == Step(o, After(o, records), r)
  {
  }

  // ------------------------------------------------------- one at a time

  // Follows the sessions: which one is open, and how many there have been;
  // None once a session is opened beside another, or used when not open.
  datatype Line = Line(open: Option<Sink>, count: nat)

  function Follow(events: seq<Event>): Option<Line> {
    if events == [] then Some(Line(None, 0))
    else
      var before := Follow(events[..|events| - 1]);
      if before.None? then None else Advance(before.value, events[|events| - 1])
  }

  function Advance(line: Line, e: Event): Option<Line> {
    match e
    case Opened(sink) =>
      if line.open.None? && sink.id == line.count then Some(Line(Some(sink), line.count + 1)) else None
    case Fed(sink, _) => if line.open == Some(sink) then Some(line) else None
    case Finished(sink) => if line.open == Some(sink) then Some(Line(None, line.count)) else None
    case _ => Some(line)
  }

  // Neither opens a session nor feeds or finishes one.
  predicate Aside(e: Event) {
    e.Statement? || e.Tried? || e.Begin? || e.Commit?
  }

  lemma {:induction false} FollowAside(events: seq<Event>, more: seq<Event>)
    requires Follow(events).Some? && forall i :: 0 <= i < |more| ==> Aside(more[i])
    ensures Follow(events + more) == Follow(events)
  {
    if more == [] {
      assert events + more == events;
    } else {
      var n := |more| - 1;
      FollowAside(events, more[..n]);
      FollowSnoc(events + more[..n], more[n]);
      assert events + more == events + more[..n] + [more[n]];
    }
  }

  lemma StatementsAside(o: Options, r: Record)
    ensures forall i :: 0 <= i < |Statements(o, r)| ==> Aside(Statements(o, r)[i])
  {
    PreludeTried(o, r);
  }

  lemma FollowSnoc(events: seq<Event>, e: Event)
    requires Follow(events).Some?
    ensures Follow(events + [e]) == Advance(Follow(events).value, e)
  {
  }

  predicate InStep(p: Progress) {
    Follow(p.events) == Some(Line(p.active, p.sessions))
  }

  lemma ClosedInStep(p: Progress)
    requires InStep(p)
    ensures InStep(Closed(p))
  {
  }

  lemma OnSliceInStep(p: Progress, d: DataSlice)
    requires InStep(p)
    ensures InStep(OnSlice(p, d))
  {
    hide Follow;
    ClosedInStep(p);
    var q := WithSink(p, d);
    if !For(p.active, d) && !d.isLast {
      FollowSnoc(Closed(p).events, Opened(Sink(p.sessions, d.schemaName, d.tableName)));
    }
    assert InStep(q);
    if q.active.Some? && d.data != [] {
      FollowSnoc(q.events, Fed(q.active.value, d.data));
    }
    ClosedInStep(WithData(q, d));
  }

  // Whatever the records, there are never two sessions open, only the open one
  // is fed, and each is finished exactly once.
  lemma SessionsInTurn(o: Options, records: seq<Record>)
    ensures InStep(After(o, records))
    ensures Follow(Events(o, records)) == Some(Line(None, After(o, records).sessions))
  {
    AlwaysInStep(o, records);
    hide InStep, After, Follow;
    ClosedInStep(After(o, records));
    InStepMeans(Closed(After(o, records)));
    FollowAside(Closed(After(o, records)).events, Ending(o));
  }

  lemma {:induction false} AlwaysInStep(o: Options, records: seq<Record>)
    ensures InStep(After(o, records))
  {
    hide Step, Follow;
    if records == [] {
      StartInStep(o);
    } else {
      var n := |records| - 1;
      AlwaysInStep(o, records[..n]);
      StepInStep(o, After(o, records[..n]), records[n]);
    }
  }

  lemma StartInStep(o: Options)
    ensures InStep(Start(o))
  {
    FollowAside([], Start(o).events);
    assert [] + Start(o).events == Start(o).events;
  }

  lemma InStepMeans(p: Progress)
    requires InStep(p)
    ensures Follow(p.events) == Some(Line(p.active, p.sessions))
  {
  }

  lemma StepInStep(o: Options, p: Progress, r: Record)
    requires InStep(p)
    ensures InStep(Step(o, p, r))
  {
    hide OnSlice, Follow, Reserved, Statements;
    if r.SliceRecord? {
      OnSliceInStep(p, r.slice);
    } else if !Silent(r) {
      StatementsAside(o, r);
      FollowAside(p.events, Statements(o, r));
    }
  }

  // ------------------------------------------------------- nothing lost

  type Tagged = (string, string, byte)

  function Tag(schema: string, table: string, data: bytes): seq<Tagged> {
    seq(|data|, i requires 0 <= i < |data| => (schema, table, data[i]))
  }

  // The bytes that reached a table, in order.
  function Delivered(events: seq<Event>): seq<Tagged> {
    if events == [] then []
    else
      var e := events[|events| - 1];
      Delivered(events[..|events| - 1]) + if e.Fed? then Tag(e.sink.schema, e.sink.table, e.data) else []
  }

  function Sent(records: seq<Record>): seq<Tagged> {
    if records == [] then []
    else
      var r := records[|records| - 1];
      Sent(records[..|records| - 1]) + SentBy(r)
  }

  function SentBy(r: Record): seq<Tagged> {
    if r.SliceRecord? then Tag(r.slice.schemaName, r.slice.tableName, r.slice.data) else []
  }

  // The table of the latest slice, unless that slice was its table's last.
  function OpenTable(records: seq<Record>): Option<(string, string)> {
    if records == [] then None
    else
      var r := records[|records| - 1];
      if !r.SliceRecord? then OpenTable(records[..|records| - 1])
      else if r.slice.isLast then None
      else Some((r.slice.schemaName, r.slice.tableName))
  }

  // A last slice that still carries data, right after another table's slices
  // or with no slice of its own table before it.
  predicate Dropped(records: seq<Record>, i: nat)
    requires i < |records|
  {
    var r := records[i];
    && r.SliceRecord? && r.slice.isLast && r.slice.data != []
    && OpenTable(records[..i]) != Some((r.slice.schemaName, r.slice.tableName))
  }

  function Table(active: Option<Sink>): Option<(string, string)> {
    if active.Some? then Some((active.value.schema, active.value.table)) else None
  }

  lemma {:induction false} ActiveIsOpenTable(o: Options, records: seq<Record>)
    ensures Table(After(o, records).active) == OpenTable(records)
  {
    if records == [] {
    } else {
      ActiveIsOpenTable(o, records[..|records| - 1]);
    }
  }

  lemma DeliveredSnoc(events: seq<Event>, e: Event)
    ensures Delivered(events + [e])
            == Delivered(events) + if e.Fed? then Tag(e.sink.schema, e.sink.table, e.data) else []
  {
  }

  lemma {:induction false} DeliveredAside(events: seq<Event>, more: seq<Event>)
    requires forall i :: 0 <= i < |more| ==> !more[i].Fed?
    ensures Delivered(events + more) == Delivered(events)
  {
    hide Delivered, Tag;
    if more == [] {
      assert events + more == events;
    } else {
      var n := |more| - 1;
      DeliveredAside(events, more[..n]);
      DeliveredSnoc(events + more[..n], more[n]);
      assert events + more == events + more[..n] + [more[n]];
    }
  }

  lemma ClosedDelivers(p: Progress)
    ensures Delivered(Closed(p).events) == Delivered(p.events)
  {
  }

  lemma OnSliceDelivers(p: Progress, d: DataSlice)
    ensures Delivered(OnSlice(p, d).events)
            == Delivered(p.events)
               + if d.isLast && Table(p.active) != Some((d.schemaName, d.tableName)) then []
                 else Tag(d.schemaName, d.tableName, d.data)
  {
    hide Delivered;
    ClosedDelivers(p);
    var q := WithSink(p, d);
    if !For(p.active, d) && !d.isLast {
      DeliveredSnoc(Closed(p).events, Opened(Sink(p.sessions, d.schemaName, d.tableName)));
    }
    assert Delivered(q.events) == Delivered(p.events);
    if q.active.Some? && d.data != [] {
      DeliveredSnoc(q.events, Fed(q.active.value, d.data));
    }
    ClosedDelivers(WithData(q, d));
  }

  predicate NoneDropped(records: seq<Record>, n: nat)
    requires n <= |records|
  {
    forall i: nat :: i < n ==> !Dropped(records, i)
  }

  lemma NoneDroppedSnoc(records: seq<Record>)
    requires records != []
    ensures var n := |records| - 1;
            NoneDropped(records, |records|) <==> NoneDropped(records[..n], n) && !Dropped(records, n)
  {
    var n := |records| - 1;
    hide OpenTable;
    forall i: nat | i < n ensures Dropped(records[..n], i) <==> Dropped(records, i) {
      assert records[..n][..i] == records[..i];
    }
  }

  lemma StepDelivers(o: Options, records: seq<Record>)
    requires records != []
    ensures var n := |records| - 1;
            var more := SentBy(records[n]);
            && Sent(records) == Sent(records[..n]) + more
            && Delivered(After(o, records).events)
               == Delivered(After(o, records[..n]).events) + (if Dropped(records, n) then [] else more)
            && (Dropped(records, n) ==> more != [])
  {
    var n := |records| - 1;
    var p, r := After(o, records[..n]), records[n];
    ActiveIsOpenTable(o, records[..n]);
    hide Delivered, OpenTable, After, Reserved, Statements;
    assert After(o, records) == Step(o, p, r) by { AfterLast(o, records); }
    if r.SliceRecord? {
      OnSliceDelivers(p, r.slice);
    } else if !Silent(r) {
      StatementsAside(o, r);
      DeliveredAside(p.events, Statements(o, r));
    }
  }

  lemma AfterLast(o: Options, records: seq<Record>)
    requires records != []
    ensures After(o, records) == Step(o, After(o, records[..|records| - 1]), records[|records| - 1])
  {
  }

  lemma {:induction false} DeliveredUpTo(o: Options, records: seq<Record>)
    ensures |Delivered(After(o, records).events)| <= |Sent(records)|
    ensures NoneDropped(records, |records|) ==> Delivered(After(o, records).events) == Sent(records)
    ensures !NoneDropped(records, |records|) ==> |Delivered(After(o, records).events)| < |Sent(records)|
  {
    if records == [] {
      DeliveredAside([], Start(o).events);
      assert [] + Start(o).events == Start(o).events;
    } else {
      var n := |records| - 1;
      DeliveredUpTo(o, records[..n]);
      hide Delivered, Sent, SentBy, Dropped, NoneDropped, After;
      NoneDroppedSnoc(records);
      StepDelivers(o, records);
    }
  }

  lemma DeliveredAtEnd(o: Options, records: seq<Record>)
    ensures Delivered(Events(o, records)) == Delivered(After(o, records).events)
  {
    hide After;
    ClosedDelivers(After(o, records));
    DeliveredAside(Closed(After(o, records)).events, Ending(o));
  }

  // Every byte of every slice reaches its own table in order if and only if no
  // last slice carries data without an open session of its table.
  lemma DeliveredExactly(o: Options, records: seq<Record>)
    ensures Delivered(Events(o, records)) == Sent(records) <==> forall i: nat :: i < |records| ==> !Dropped(records, i)
  {
    hide After, Dropped, Events;
    DeliveredUpTo(o, records);
    DeliveredAtEnd(o, records);
  }

  // The shortest such stream: one slice, marked last, holding one byte.
  lemma LastSliceLost(o: Options)
    ensures var records := [SliceRecord(DataSlice("s", "t", 1, true, [7]))];
            Delivered(Events(o, records)) == [] && Sent(records) == [("s", "t", 7)]
  {
    var records := [SliceRecord(DataSlice("s", "t", 1, true, [7]))];
    assert records[..0] == [] && Dropped(records, 0);
    hide Events, After, Dropped;
    DeliveredUpTo(o, records);
    DeliveredAtEnd(o, records);
  }

  // ------------------------------------------------- streams of a backup

  datatype Part = TablePart(records: seq<Record>, schema: string, table: string) | OtherPart(record: Record)

  // A table as BackupTable writes it, or a record that is no slice, such as the
  // header at the beginning.
  ghost predicate WellShaped(part: Part) {
    match part
    case TablePart(records, schema, table) => TableShape(records, schema, table)
    case OtherPart(r) => !r.SliceRecord? && !r.TrailerRecord?
  }

  function RecordsOf(parts: seq<Part>): seq<Record> {
    if parts == [] then []
    else RecordsOf(parts[..|parts| - 1]) + PartRecords(parts[|parts| - 1])
  }

  function PartRecords(part: Part): seq<Record> {
    match part
    case TablePart(records, _, _) => records
    case OtherPart(r) => [r]
  }

  // One session, fed the table's slices one by one.
  function Session(sink: Sink, slices: seq<Record>): seq<Event>
    requires forall r :: r in slices ==> r.SliceRecord?
  {
    [Opened(sink)] + Feeds(sink, slices) + [Finished(sink)]
  }

  function Feeds(sink: Sink, slices: seq<Record>): seq<Event>
    requires forall r :: r in slices ==> r.SliceRecord?
  {
    seq(|slices|, i requires 0 <= i < |slices| => assert slices[i] in slices; Fed(sink, slices[i].slice.data))
  }

  // The number of tables that have data.
  function Filled(parts: seq<Part>): nat {
    if parts == [] then 0
    else
      var part := parts[|parts| - 1];
      Filled(parts[..|parts| - 1]) + if part.TablePart? && |part.records| > 2 then 1 else 0
  }

  ghost function EventsOf(o: Options, parts: seq<Part>): seq<Event>
    requires forall i :: 0 <= i < |parts| ==> WellShaped(parts[i])
  {
    if parts == [] then []
    else
      var n := |parts| - 1;
      EventsOf(o, parts[..n]) + PartEvents(o, parts[n], Filled(parts[..n]))
  }

  ghost function PartEvents(o: Options, part: Part, id: nat): seq<Event>
    requires WellShaped(part)
  {
    match part
    case OtherPart(r) => if Silent(r) then [] else Statements(o, r)
    case TablePart(records, schema, table) =>
      if |records| == 2 then Statements(o, records[0])
      else Statements(o, records[0]) + Session(Sink(id, schema, table), records[1..|records| - 1])
  }

  // After its first j slices, a table has its session open and fed so far.
  ghost predicate Midway(o: Options, q: Progress, p: Progress, part: Part, j: nat)
    requires part.TablePart? && WellShaped(part) && j < |part.records| - 1
  {
    SlicesOf(part, j);
    var sink := Sink(p.sessions, part.schema, part.table);
    q == Progress(p.events + Statements(o, part.records[0]) + [Opened(sink)] + Feeds(sink, part.records[1..j + 1]),
                  Some(sink), p.sessions + 1)
  }

  lemma SlicesOf(part: Part, j: nat)
    requires part.TablePart? && WellShaped(part) && j < |part.records| - 1
    ensures forall r :: r in part.records[1..j + 1] ==> r.SliceRecord?
  {
  }

  lemma FirstSlice(o: Options, p: Progress, part: Part)
    requires part.TablePart? && WellShaped(part) && 1 < |part.records| - 1 && p.active.None?
    ensures Midway(o, Step(o, Step(o, p, part.records[0]), part.records[1]), p, part, 1)
  {
  }

  lemma NextSlice(o: Options, q: Progress, p: Progress, part: Part, j: nat)
    requires part.TablePart? && WellShaped(part) && 1 < j < |part.records| - 1
    requires Midway(o, q, p, part, j - 1)
    ensures Midway(o, Step(o, q, part.records[j]), p, part, j)
  {
  }

  lemma LastSlice(o: Options, q: Progress, p: Progress, part: Part)
    requires part.TablePart? && WellShaped(part) && |part.records| > 2
    requires Midway(o, q, p, part, |part.records| - 2)
    ensures Step(o, q, part.records[|part.records| - 1])
            == Progress(p.events + PartEvents(o, part, p.sessions), None, p.sessions + 1)
  {
    hide Statements, Feeds;
    var sink := Sink(p.sessions, part.schema, part.table);
    SlicesOf(part, |part.records| - 2);
    Nested(p.events, Statements(o, part.records[0]), [Opened(sink)],
           Feeds(sink, part.records[1..|part.records| - 1]), [Finished(sink)]);
  }

  lemma Nested(a: seq<Event>, b: seq<Event>, c: seq<Event>, d: seq<Event>, e: seq<Event>)
    ensures a + b + c + d + e == a + (b + (c + d + e))
  {
    Regroup(a + b, c, d);
    Regroup(a + b, c + d, e);
    Regroup(a, b, c + d + e);
  }

  // The slices of a table, up to slice j, leave its session open.
  lemma {:induction false} SlicesFeed(o: Options, before: seq<Record>, part: Part, j: nat)
    requires part.TablePart? && WellShaped(part) && 1 <= j < |part.records| - 1
    requires After(o, before).active.None?
    ensures Midway(o, After(o, before + part.records[..j + 1]), After(o, before), part, j)
    decreases j
  {
    hide WellShaped, Midway, Step, After;
    var r := part.records[j];
    assert before + part.records[..j + 1] == before + part.records[..j] + [r];
    AfterSnoc(o, before + part.records[..j], r);
    if j == 1 {
      assert before + part.records[..1] == before + [part.records[0]];
      AfterSnoc(o, before, part.records[0]);
      FirstSlice(o, After(o, before), part);
    } else {
      SlicesFeed(o, before, part, j - 1);
      NextSlice(o, After(o, before + part.records[..j]), After(o, before), part, j);
    }
  }

  lemma AtLeastTwo(part: Part)
    requires part.TablePart? && WellShaped(part)
    ensures |part.records| >= 2
  {
  }

  lemma EmptyTable(o: Options, p: Progress, part: Part)
    requires part.TablePart? && WellShaped(part) && |part.records| == 2 && p.active.None?
    ensures Step(o, Step(o, p, part.records[0]), part.records[1])
            == Progress(p.events + PartEvents(o, part, p.sessions), None, p.sessions)
  {
    hide Statements;
  }

  lemma TableRuns(o: Options, before: seq<Record>, part: Part)
    requires part.TablePart? && WellShaped(part) && After(o, before).active.None?
    ensures var p := After(o, before);
            After(o, before + part.records)
            == Progress(p.events + PartEvents(o, part, p.sessions), None,
                        p.sessions + if |part.records| > 2 then 1 else 0)
  {
    hide After, WellShaped, Midway, PartEvents, Step;
    var records := part.records;
    var m := |records| - 1;
    AtLeastTwo(part);
    assert before + records == before + records[..m] + [records[m]];
    AfterSnoc(o, before + records[..m], records[m]);
    if m == 1 {
      assert before + records[..1] == before + [records[0]];
      AfterSnoc(o, before, records[0]);
      EmptyTable(o, After(o, before), part);
    } else {
      SlicesFeed(o, before, part, m - 1);
      LastSlice(o, After(o, before + records[..m]), After(o, before), part);
    }
  }

  lemma PartRuns(o: Options, before: seq<Record>, part: Part)
    requires WellShaped(part) && After(o, before).active.None?
    ensures var p := After(o, before);
            After(o, before + PartRecords(part))
            == Progress(p.events + PartEvents(o, part, p.sessions), None,
                        p.sessions + if part.TablePart? && |part.records| > 2 then 1 else 0)
  {
    if part.OtherPart? {
      AfterSnoc(o, before, part.record);
    } else {
      TableRuns(o, before, part);
    }
  }

  // For a stream as the backup writes it, restore opens one session for each
  // table with data, in order, feeds it that table's slices and finishes it
  // before anything else is executed; nothing else is opened.
  lemma {:induction false} OneSessionPerTable(o: Options, parts: seq<Part>)
    requires forall i :: 0 <= i < |parts| ==> WellShaped(parts[i])
    ensures After(o, RecordsOf(parts)) == Progress(Start(o).events + EventsOf(o, parts), None, Filled(parts))
    ensures Events(o, RecordsOf(parts)) == Start(o).events + EventsOf(o, parts) + Ending(o)
  {
    hide After, PartEvents, PartRecords, WellShaped, Start, Ending;
    if parts == [] {
      NothingYet(o);
    } else {
      var n := |parts| - 1;
      OneSessionPerTable(o, parts[..n]);
      PartRuns(o, RecordsOf(parts[..n]), parts[n]);
      Regroup(Start(o).events, EventsOf(o, parts[..n]), PartEvents(o, parts[n], Filled(parts[..n])));
    }
  }

  lemma NothingYet(o: Options)
    ensures After(o, []) == Start(o) == Progress(Start(o).events + [], None, 0)
  {
  }

  lemma PartHasNoTrailer(part: Part)
    requires WellShaped(part)
    ensures forall i :: 0 <= i < |PartRecords(part)| ==> !PartRecords(part)[i].TrailerRecord?
  {
    if part.TablePart? {
      forall i | 0 <= i < |part.records| ensures !part.records[i].TrailerRecord? {
        assert 1 <= i < |part.records| - 1 ==> DataSliceAt(part.records[i], part.schema, part.table, i);
      }
    }
  }

  // What a session was fed.
  function FedTo(events: seq<Event>, sink: Sink): bytes {
    if events == [] then []
    else FedBy(events[0], sink) + FedTo(events[1..], sink)
  }

  function FedBy(e: Event, sink: Sink): bytes {
    if e.Fed? && e.sink == sink then e.data else []
  }

  // A table's session is fed exactly the payload bytes of the table's records.
  lemma SessionHoldsTable(records: seq<Record>, schema: string, table: string, sink: Sink)
    requires TableShape(records, schema, table)
    ensures forall r :: r in records[1..|records| - 1] ==> r.SliceRecord?
    ensures FedTo(Session(sink, records[1..|records| - 1]), sink) == Payloads(records)
  {
    var n := |records| - 1;
    var slices := records[1..n];
    AllSlices(records, schema, table);
    FeedsHold(sink, slices);
    SessionFed(sink, slices);
    assert records == [records[0]] + (slices + [records[n]]);
    assert records[0].SchemaRecord? && records[n].slice.data == [];
    hide TableShape, Session, Feeds, FedTo;
    PayloadsAppend([records[0]], slices + [records[n]]);
    PayloadsSnoc(slices, records[n]);
    assert Payloads([records[0]]) == [] + Payloads([]);
  }

  lemma AllSlices(records: seq<Record>, schema: string, table: string)
    requires TableShape(records, schema, table)
    ensures forall r :: r in records[1..|records| - 1] ==> r.SliceRecord?
  {
    var slices := records[1..|records| - 1];
    forall r | r in slices ensures r.SliceRecord? {
      var i :| 0 <= i < |slices| && slices[i] == r;
      assert DataSliceAt(records[i + 1], schema, table, i + 1);
    }
  }

  lemma SessionFed(sink: Sink, slices: seq<Record>)
    requires forall r :: r in slices ==> r.SliceRecord?
    ensures FedTo(Session(sink, slices), sink) == FedTo(Feeds(sink, slices), sink)
  {
    var feeds := Feeds(sink, slices);
    var session := Session(sink, slices);
    assert session[0] == Opened(sink) && session[1..] == feeds + [Finished(sink)];
    hide Feeds, Session;
    FedToAppend(feeds, [Finished(sink)], sink);
    assert FedTo([Finished(sink)], sink) == [] + FedTo([], sink);
    assert FedTo(session, sink) == [] + FedTo(session[1..], sink);
  }

  lemma {:induction false} FeedsHold(sink: Sink, slices: seq<Record>)
    requires forall r :: r in slices ==> r.SliceRecord?
    ensures FedTo(Feeds(sink, slices), sink) == Payloads(slices)
  {
    if slices == [] {
    } else {
      assert slices[0] in slices;
      FeedsHold(sink, slices[1..]);
      assert Feeds(sink, slices)[1..] == Feeds(sink, slices[1..]);
    }
  }

  lemma {:induction false} FedToAppend(a: seq<Event>, b: seq<Event>, sink: Sink)
    ensures FedTo(a + b, sink) == FedTo(a, sink) + FedTo(b, sink)
  {
    hide FedBy;
    if a == [] {
      assert a + b == b;
      assert [] + FedTo(b, sink) == FedTo(b, sink);
    } else {
      FedToAppend(a[1..], b, sink);
      assert (a + b)[1..] == a[1..] + b && (a + b)[0] == a[0];
      Regroup(FedBy(a[0], sink), FedTo(a[1..], sink), FedTo(b, sink));
    }
  }

  lemma {:induction false} NothingFed(events: seq<Event>, sink: Sink)
    requires forall i :: 0 <= i < |events| ==> !events[i].Fed? || events[i].sink != sink
    ensures FedTo(events, sink) == []
  {
    if events == [] {
    } else {
      NothingFed(events[1..], sink);
    }
  }

  // A part feeds its own session only.
  lemma PartFeeds(o: Options, part: Part, id: nat, sink: Sink)
    requires WellShaped(part)
    ensures FedTo(PartEvents(o, part, id), sink)
            == if part.TablePart? && |part.records| > 2 && sink == Sink(id, part.schema, part.table)
               then Payloads(part.records) else []
  {
    if part.OtherPart? {
      PreludeTried(o, part.record);
      NothingFed(PartEvents(o, part, id), sink);
    } else {
      var own, head := Sink(id, part.schema, part.table), Statements(o, part.records[0]);
      PreludeTried(o, part.records[0]);
      NothingFed(head, sink);
      if |part.records| > 2 {
        SessionHoldsTable(part.records, part.schema, part.table, own);
        var session := Session(own, part.records[1..|part.records| - 1]);
        if sink != own {
          NothingFed(session, sink);
        }
        hide Session, Statements, Payloads, FedTo;
        FedToAppend(head, session, sink);
      }
    }
  }

  lemma {:induction false} FilledGrows(parts: seq<Part>, i: nat, n: nat)
    requires i < n <= |parts| && parts[i].TablePart? && |parts[i].records| > 2
    ensures Filled(parts[..i]) < Filled(parts[..n])
    decreases n
  {
    assert parts[..n][..n - 1] == parts[..n - 1];
    if i < n - 1 {
      FilledGrows(parts, i, n - 1);
    }
  }

  // Tables with data have different sessions.
  lemma IdsDiffer(parts: seq<Part>, i: nat, m: nat)
    requires i < |parts| && m < |parts| && i != m
    requires parts[i].TablePart? && |parts[i].records| > 2 && parts[m].TablePart? && |parts[m].records| > 2
    ensures Filled(parts[..i]) != Filled(parts[..m])
  {
    if i < m {
      FilledGrows(parts, i, m);
    } else {
      FilledGrows(parts, m, i);
    }
  }

  // Over a whole stream, each table's session is fed that table and nothing else.
  lemma {:induction false} TableFed(o: Options, parts: seq<Part>, i: nat, n: nat)
    requires forall k :: 0 <= k < |parts| ==> WellShaped(parts[k])
    requires i < |parts| && n <= |parts| && parts[i].TablePart? && |parts[i].records| > 2
    ensures FedTo(EventsOf(o, parts[..n]), Sink(Filled(parts[..i]), parts[i].schema, parts[i].table))
            == if i < n then Payloads(parts[i].records) else []
    decreases n
  {
    hide FedTo, PartEvents, Payloads, Filled, WellShaped;
    var sink := Sink(Filled(parts[..i]), parts[i].schema, parts[i].table);
    if n == 0 {
      NothingFed([], sink);
    } else {
      var m := n - 1;
      TableFed(o, parts, i, m);
      assert parts[..n][..m] == parts[..m];
      PartFeeds(o, parts[m], Filled(parts[..m]), sink);
      if m != i && parts[m].TablePart? && |parts[m].records| > 2 {
        IdsDiffer(parts, i, m);
      }
      FedToAppend(EventsOf(o, parts[..m]), PartEvents(o, parts[m], Filled(parts[..m])), sink);
    }
  }

  // Some session of this table was fed exactly the bytes of its slices.
  ghost predicate Loaded(events: seq<Event>, part: Part)
    requires part.TablePart?
  {
    exists k :: FedTo(events, Sink(k, part.schema, part.table)) == Payloads(part.records)
  }

  lemma DataNeedsSlices(part: Part)
    requires part.TablePart? && WellShaped(part)
    ensures |part.records| >= 2 && (|part.records| == 2 ==> Payloads(part.records) == [])
  {
    if |part.records| == 2 {
      var head, marker := part.records[0], part.records[1];
      assert part.records == [head] + [marker];
      PayloadsAppend([head], [marker]);
      assert Payloads([head]) == [] + Payloads([]) && Payloads([marker]) == [] + Payloads([]);
    }
  }

  lemma TablesLoaded(o: Options, parts: seq<Part>, i: nat)
    requires forall k :: 0 <= k < |parts| ==> WellShaped(parts[k])
    requires i < |parts| && parts[i].TablePart? && Payloads(parts[i].records) != []
    ensures Loaded(Start(o).events + EventsOf(o, parts) + Ending(o), parts[i])
  {
    hide FedTo, Payloads, Start, Ending, EventsOf, Filled, WellShaped;
    var part := parts[i];
    DataNeedsSlices(part);
    var sink := Sink(Filled(parts[..i]), part.schema, part.table);
    TableFed(o, parts, i, |parts|);
    assert parts[..|parts|] == parts;
    TransactionFeedsNothing(o, sink);
    FedToAppend(Start(o).events, EventsOf(o, parts), sink);
    FedToAppend(Start(o).events + EventsOf(o, parts), Ending(o), sink);
    assert [] + Payloads(part.records) + [] == Payloads(part.records);
  }

  lemma TransactionFeedsNothing(o: Options, sink: Sink)
    ensures FedTo(Start(o).events, sink) == [] && FedTo(Ending(o), sink) == []
  {
    NothingFed(Start(o).events, sink);
    NothingFed(Ending(o), sink);
  }
}
