// Which records a restore executes as statements.
module RestoreStatements {
  import opened Wrappers
  import opened Codecs
  import opened StreamFormat
  import opened TextTools
  import opened CopyRestore

  predicate SameLetter(c: char, capital: char) {
    c == capital || ('A' <= capital <= 'Z' && 'a' <= c <= 'z' && c - 'a' == capital - 'A')
  }

  // CREATE SCHEMA in any letters, after nothing but white space.
  predicate SchemaAt(sql: string, n: nat) {
    && n + 13 <= |sql| && (forall i :: 0 <= i < n ==> White(sql[i]))
    && forall i :: 0 <= i < 13 ==> SameLetter(sql[n + i], "CREATE SCHEMA"[i])
  }

  ghost predicate CreatesSchema(sql: string) {
    exists n: nat :: SchemaAt(sql, n)
  }

  // pg_..., "pg_..., or pg_temp or pg_toast anywhere.
  ghost predicate SystemName(name: string) {
    || StandsAt(name, "pg_", 0) || StandsAt(name, "\"pg_", 0)
    || exists n: nat :: StandsAt(name, "pg_temp", n) || StandsAt(name, "pg_toast", n)
  }

  // Every schema, sequence, constraint, index, view and routine is executed, and
  // every statement before them but the creation of a system schema.
  ghost predicate Runs(r: Record) {
    match r
    case PreDataRecord(name, sql) => !(CreatesSchema(sql) && SystemName(name))
    case SchemaRecord(_, _, _, _) => true
    case SequenceRecord(_, _, _, _) => true
    case PostDataRecord(_, _, _, _) => true
    case RoutineRecord(_, _, _, _) => true
    case HeaderRecord(_) => false
    case SliceRecord(_) => false
    case TrailerRecord(_) => false
  }

  ghost function Running(records: seq<Record>): seq<Record> {
    if records == [] then []
    else
      var r := records[|records| - 1];
      Running(records[..|records| - 1]) + if Runs(r) then [r] else []
  }

  // The statements that were executed, in order.
  function Executed(events: seq<Event>): seq<Record> {
    if events == [] then []
    else
      var e := events[|events| - 1];
      Executed(events[..|events| - 1]) + if e.Statement? then [e.record] else []
  }

  lemma SchemaStarts(sql: string)
    ensures "CREATE SCHEMA" <= Upper(Trim(sql)) <==> CreatesSchema(sql)
  {
    var lead, tail := TrimMeans(sql);
    LettersMatch(Trim(sql));
    hide Trim, Upper;
    if "CREATE SCHEMA" <= Upper(Trim(sql)) {
      FoundWhole(sql, lead, Trim(sql), tail);
    }
    if m: nat :| SchemaAt(sql, m) {
      FoundTrimmed(sql, lead, Trim(sql), tail, m);
    }
  }

  lemma Middle(sql: string, lead: string, t: string, tail: string)
    requires sql == lead + t + tail
    ensures forall i :: 0 <= i < |lead| ==> sql[i] == lead[i]
    ensures forall i :: 0 <= i < |t| ==> sql[|lead| + i] == t[i]
  {
  }

  lemma FoundWhole(sql: string, lead: string, t: string, tail: string)
    requires sql == lead + t + tail && Blank(lead)
    requires |t| >= 13 && forall i :: 0 <= i < 13 ==> SameLetter(t[i], "CREATE SCHEMA"[i])
    ensures SchemaAt(sql, |lead|)
  {
    Middle(sql, lead, t, tail);
    hide SameLetter, White;
  }

  lemma FoundTrimmed(sql: string, lead: string, t: string, tail: string, m: nat)
    requires sql == lead + t + tail && Blank(lead) && Blank(tail) && (t != [] ==> !White(t[0])) && SchemaAt(sql, m)
    ensures |t| >= 13 && forall i :: 0 <= i < 13 ==> SameLetter(t[i], "CREATE SCHEMA"[i])
  {
    assert SameLetter(sql[m + 0], "CREATE SCHEMA"[0]) && SameLetter(sql[m + 12], "CREATE SCHEMA"[12]);
    NotWhite(sql[m]);
    NotWhite(sql[m + 12]);
    hide SameLetter, White;
    WhereTrimmed(sql, lead, t, tail, m);
    Middle(sql, lead, t, tail);
    forall i | 0 <= i < 13 ensures SameLetter(t[i], "CREATE SCHEMA"[i]) {
      assert sql[m + i] == t[i];
    }
  }

  lemma LettersMatch(t: string)
    ensures "CREATE SCHEMA" <= Upper(t) <==> |t| >= 13 && forall i :: 0 <= i < 13 ==>
              SameLetter(t[i], "CREATE SCHEMA"[i])
  {
    forall i | 0 <= i < |t| && i < 13
      ensures Upper(t)[i] == "CREATE SCHEMA"[i] <==> SameLetter(t[i], "CREATE SCHEMA"[i])
    {
      UpperMeans(t, i);
      Capital(i);
    }
    hide Upper, SameLetter;
    assert |Upper(t)| == |t|;
    if |t| >= 13 && forall i :: 0 <= i < 13 ==> Upper(t)[i] == "CREATE SCHEMA"[i] {
      assert Upper(t)[..13] == "CREATE SCHEMA";
    }
  }

  lemma Capital(i: nat)
    requires i < 13
    ensures !('a' <= "CREATE SCHEMA"[i] <= 'z')
  {
  }

  lemma NotWhite(c: char)
    requires SameLetter(c, 'C') || SameLetter(c, 'A')
    ensures !White(c)
  {
    hide White;
    WhiteMeans(c);
  }

  lemma WhereTrimmed(sql: string, lead: string, t: string, tail: string, m: nat)
    requires sql == lead + t + tail && Blank(lead) && Blank(tail) && (t != [] ==> !White(t[0]))
    requires m + 12 < |sql| && (forall i :: 0 <= i < m ==> White(sql[i])) && !White(sql[m]) && !White(sql[m + 12])
    ensures m == |lead| && m + 12 < |lead| + |t|
  {
    assert forall i :: 0 <= i < |lead| ==> sql[i] == lead[i];
    assert forall i :: 0 <= i < |tail| ==> sql[|lead| + |t| + i] == tail[i];
    assert t != [] ==> sql[|lead|] == t[0];
  }

  lemma RunsExactly(r: Record)
    ensures Runs(r) <==> !r.SliceRecord? && !r.TrailerRecord? && !Silent(r)
  {
    if r.PreDataRecord? {
      SchemaStarts(r.sql);
      ContainsMeans(r.name, "pg_temp");
      ContainsMeans(r.name, "pg_toast");
      hide CreatesSchema, Upper, Trim, Contains;
      assert StandsAt(r.name, "pg_", 0) <==> "pg_" <= r.name;
      assert StandsAt(r.name, "\"pg_", 0) <==> "\"pg_" <= r.name;
    }
  }

  // A statement that does not create a schema, or names nothing with pg_ in it,
  // runs; the creation of a temporary schema does not.
  lemma RunsUnlessSystem(r: Record)
    requires r.PreDataRecord? && (!CreatesSchema(r.sql) || !Contains(r.name, "pg_"))
    ensures Runs(r)
  {
    ContainsMeans(r.name, "pg_");
    PgParts();
    hide StandsAt, Contains, CreatesSchema;
    if n: nat :| StandsAt(r.name, "pg_temp", n) {
      PartStands(r.name, "pg_temp", n, 0);
    }
    if n: nat :| StandsAt(r.name, "pg_toast", n) {
      PartStands(r.name, "pg_toast", n, 0);
    }
    if StandsAt(r.name, "\"pg_", 0) {
      PartStands(r.name, "\"pg_", 0, 1);
    }
  }

  lemma PgParts()
    ensures "pg_temp"[0..3] == "pg_" && "pg_toast"[0..3] == "pg_" && "\"pg_"[1..4] == "pg_"
  {
    var temp, toast, quoted := "pg_temp", "pg_toast", "\"pg_";
    assert temp[0..3] == [temp[0], temp[1], temp[2]];
    assert toast[0..3] == [toast[0], toast[1], toast[2]];
    assert quoted[1..4] == [quoted[1], quoted[2], quoted[3]];
  }

  lemma PartStands(s: string, pattern: string, n: nat, from: nat)
    requires StandsAt(s, pattern, n) && from + 3 <= |pattern| && pattern[from..from + 3] == "pg_"
    ensures StandsAt(s, "pg_", n + from)
  {
    forall i | 0 <= i < 3 ensures s[n + from..n + from + 3][i] == "pg_"[i] {
      assert s[n + from + i] == s[n..n + |pattern|][from + i] == pattern[from..from + 3][i];
    }
  }

  lemma TempSchemaPassedOver()
    ensures !Runs(PreDataRecord("pg_temp_1", "CREATE SCHEMA pg_temp_1"))
  {
    var sql := "CREATE SCHEMA pg_temp_1";
    var name := "pg_temp_1";
    assert sql[..13] == "CREATE SCHEMA" && name[..3] == "pg_";
    forall i | 0 <= i < 13 ensures SameLetter(sql[0 + i], "CREATE SCHEMA"[i]) {
      assert sql[..13][i] == sql[i];
    }
    assert SchemaAt(sql, 0) && StandsAt(name, "pg_", 0);
  }

  lemma ExecutedSnoc(events: seq<Event>, e: Event)
    ensures Executed(events + [e]) == Executed(events) + if e.Statement? then [e.record] else []
  {
  }

  lemma {:induction false} ExecutedAside(events: seq<Event>, more: seq<Event>)
    requires forall i :: 0 <= i < |more| ==> !more[i].Statement?
    ensures Executed(events + more) == Executed(events)
  {
    hide Executed;
    if more == [] {
      assert events + more == events;
    } else {
      var n := |more| - 1;
      ExecutedAside(events, more[..n]);
      ExecutedSnoc(events + more[..n], more[n]);
      assert events + more == events + more[..n] + [more[n]];
    }
  }

  lemma SliceAside(p: Progress, d: DataSlice) returns (more: seq<Event>)
    ensures OnSlice(p, d).events == p.events + more
    ensures forall i :: 0 <= i < |more| ==> more[i].Opened? || more[i].Fed? || more[i].Finished?
  {
    var q := OnSlice(p, d);
    SliceGrows(p, d);
    more := q.events[|p.events|..];
  }

  lemma StepExecutes(o: Options, p: Progress, r: Record)
    requires !r.TrailerRecord?
    ensures Executed(Step(o, p, r).events) == Executed(p.events) + if Runs(r) then [r] else []
  {
    RunsExactly(r);
    hide OnSlice, Runs, Silent, Prelude, Executed;
    if r.SliceRecord? {
      var more := SliceAside(p, r.slice);
      ExecutedAside(p.events, more);
    } else if !Silent(r) {
      PreludeTried(o, r);
      ExecutedAside(p.events, Prelude(o, r));
      ExecutedSnoc(p.events + Prelude(o, r), Statement(r));
      Regroup(p.events, Prelude(o, r), [Statement(r)]);
    }
  }

  // What a restore of these records executes is, in order, each of them that is
  // to run.
  lemma {:induction false} ExecutedExactly(o: Options, records: seq<Record>)
    requires NoTrailer(records)
    ensures Executed(After(o, records).events) == Running(records)
  {
    hide Step, Runs;
    if records == [] {
      ExecutedAside([], Start(o).events);
      assert [] + Start(o).events == Start(o).events;
    } else {
      var n := |records| - 1;
      ExecutedExactly(o, records[..n]);
      StepExecutes(o, After(o, records[..n]), records[n]);
    }
  }

  lemma WholeExecutes(o: Options, records: seq<Record>)
    requires NoTrailer(records)
    ensures Executed(Whole(o, records)) == Running(records)
  {
    hide After, Executed, Running, Closed;
    ExecutedExactly(o, records);
    ClosedExecutes(After(o, records));
    ExecutedAside(Closed(After(o, records)).events, Ending(o));
  }

  // What was called of all calls executes the first of all statements.
  lemma {:induction false} ExecutedBeginning(all: seq<Event>, asked: seq<Event>)
    requires asked <= all
    ensures Executed(asked) <= Executed(all)
    decreases |all|
  {
    if asked == all {
    } else {
      ExecutedBeginning(all[..|all| - 1], asked);
    }
  }

  lemma ClosedExecutes(p: Progress)
    ensures Executed(Closed(p).events) == Executed(p.events)
  {
    hide Executed;
    if p.active.Some? {
      ExecutedSnoc(p.events, Finished(p.active.value));
      assert Executed(p.events) + [] == Executed(p.events);
    }
  }

  // ------------------------------------------------- what is tried beforehand

  ghost predicate AskedBefore(events: seq<Event>, e: Event, m: nat) {
    exists k :: 0 <= k < m && k < |events| && events[k] == e
  }

  // Ahead of a table it is dropped if that is asked for, and every sequence its
  // defaults refer to is created.
  ghost predicate Prepared(o: Options, events: seq<Event>, r: Record, m: nat)
    requires r.SchemaRecord?
  {
    && m < |events| && events[m] == Statement(r)
    && (o.dropExisting ==> AskedBefore(events, Tried(DropTable(r.schemaName, r.tableName)), m))
    && forall j :: 0 <= j < |r.columns| && NeedsSequence(o, r, j) ==>
         AskedBefore(events, Tried(CreateSequence(o.sequenceFor(r.columns[j].defaultVal.value, r.schemaName).value)), m)
  }

  predicate NeedsSequence(o: Options, r: Record, j: nat)
    requires r.SchemaRecord? && j < |r.columns|
  {
    r.columns[j].defaultVal.Some? && o.sequenceFor(r.columns[j].defaultVal.value, r.schemaName).Some?
  }

  lemma {:induction false} SequenceTried(o: Options, schema: string, columns: seq<ColumnMeta>, j: nat)
    requires j < |columns| && columns[j].defaultVal.Some? && o.sequenceFor(columns[j].defaultVal.value, schema).Some?
    ensures Tried(CreateSequence(o.sequenceFor(columns[j].defaultVal.value, schema).value))
            in Sequences(o, schema, columns)
    decreases |columns|
  {
    var n := |columns| - 1;
    var last := SequenceOf(o, schema, columns[n]);
    if j < n {
      SequenceTried(o, schema, columns[..n], j);
    } else {
      assert last[0] == Tried(CreateSequence(o.sequenceFor(columns[j].defaultVal.value, schema).value));
    }
  }

  lemma PreludePrepares(o: Options, before: seq<Event>, r: Record)
    requires r.SchemaRecord?
    ensures Prepared(o, before + Statements(o, r), r, |before| + |Prelude(o, r)|)
  {
    var events, prelude := before + Statements(o, r), Prelude(o, r);
    forall e | e in prelude ensures AskedBefore(events, e, |before| + |prelude|) {
      var k :| 0 <= k < |prelude| && prelude[k] == e;
      assert events[|before| + k] == e;
    }
    if o.dropExisting {
      assert prelude[0] == Tried(DropTable(r.schemaName, r.tableName));
      assert Tried(DropTable(r.schemaName, r.tableName)) in prelude;
    }
    forall j | 0 <= j < |r.columns| && NeedsSequence(o, r, j)
      ensures Tried(CreateSequence(o.sequenceFor(r.columns[j].defaultVal.value, r.schemaName).value)) in prelude
    {
      SequenceTried(o, r.schemaName, r.columns, j);
    }
    hide Prelude, AskedBefore;
    assert events[|before| + |prelude|] == Statement(r);
  }

  lemma PreparedLater(o: Options, events: seq<Event>, more: seq<Event>, r: Record, m: nat)
    requires r.SchemaRecord? && Prepared(o, events, r, m) && events <= more
    ensures Prepared(o, more, r, m)
  {
    assert more[m] == events[m];
    if o.dropExisting {
      StillAsked(events, more, Tried(DropTable(r.schemaName, r.tableName)), m);
    }
    forall j | 0 <= j < |r.columns| && NeedsSequence(o, r, j)
      ensures AskedBefore(more,
                          Tried(CreateSequence(o.sequenceFor(r.columns[j].defaultVal.value, r.schemaName).value)), m)
    {
      StillAsked(events, more,
                 Tried(CreateSequence(o.sequenceFor(r.columns[j].defaultVal.value, r.schemaName).value)), m);
    }
  }

  lemma StillAsked(events: seq<Event>, more: seq<Event>, e: Event, m: nat)
    requires AskedBefore(events, e, m) && events <= more
    ensures AskedBefore(more, e, m)
  {
    var k :| 0 <= k < m && k < |events| && events[k] == e;
    assert more[k] == e;
  }

  lemma PreparedFirst(o: Options, records: seq<Record>, i: nat)
    requires i < |records| && records[i].SchemaRecord?
    ensures exists m :: Prepared(o, Whole(o, records), records[i], m)
  {
    var r, before := records[i], After(o, records[..i]).events;
    var m := |before| + |Prelude(o, r)|;
    assert records[..i + 1][..i] == records[..i];
    assert After(o, records[..i + 1]).events == before + Statements(o, r);
    PreludePrepares(o, before, r);
    AfterExtends(o, records, i + 1);
    hide After, Prepared, Closed;
    PreparedLater(o, After(o, records[..i + 1]).events, Whole(o, records), r, m);
  }

  // -------------------------------------------- nothing that is not asked for

  // What may be called for these records: a table is dropped only if that is
  // asked for and it is restored, a sequence created only for a default.
  ghost predicate Allowed(o: Options, records: seq<Record>, e: Event) {
    match e
    case Tried(DropTable(schema, table)) =>
      o.dropExisting && exists r :: r in records && r.SchemaRecord? && r.schemaName == schema && r.tableName == table
    case Tried(CreateSequence(sql)) => exists r, j :: r in records && AsksFor(o, r, j, sql)
    case Tried(Rollback) => false
    case Begin => false
    case Commit => false
    case Statement(r) => r in records
    case _ => true
  }

  predicate AsksFor(o: Options, r: Record, j: int, sql: string) {
    && r.SchemaRecord? && 0 <= j < |r.columns| && NeedsSequence(o, r, j)
    && o.sequenceFor(r.columns[j].defaultVal.value, r.schemaName) == Some(sql)
  }

  lemma {:induction false} SequencesAsked(o: Options, r: Record, n: nat)
    requires r.SchemaRecord? && n <= |r.columns|
    ensures forall e :: e in Sequences(o, r.schemaName, r.columns[..n]) ==>
              e.Tried? && e.attempt.CreateSequence? && exists j :: AsksFor(o, r, j, e.attempt.sql)
  {
    if n == 0 {
    } else {
      SequencesAsked(o, r, n - 1);
      SequencesNext(o, r.schemaName, r.columns, n - 1);
      hide Sequences;
      forall e | e in SequenceOf(o, r.schemaName, r.columns[n - 1])
        ensures e.Tried? && e.attempt.CreateSequence? && exists j :: AsksFor(o, r, j, e.attempt.sql)
      {
        assert AsksFor(o, r, n - 1, e.attempt.sql);
      }
    }
  }

  lemma StatementsAllowed(o: Options, records: seq<Record>, r: Record)
    requires r in records
    ensures forall e :: e in Statements(o, r) ==> Allowed(o, records, e)
  {
    if r.SchemaRecord? {
      SequencesAsked(o, r, |r.columns|);
      assert r.columns[..|r.columns|] == r.columns;
    }
    hide Sequences, AsksFor;
  }

  lemma {:induction false} AskedOnlyIf(o: Options, records: seq<Record>)
    ensures Start(o).events <= After(o, records).events
    ensures forall k :: |Start(o).events| <= k < |After(o, records).events| ==>
              Allowed(o, records, After(o, records).events[k])
  {
    hide Start, OnSlice, Statements, Allowed;
    if records == [] {
    } else {
      var n := |records| - 1;
      var r, p := records[n], After(o, records[..n]);
      AskedOnlyIf(o, records[..n]);
      forall e | Allowed(o, records[..n], e) ensures Allowed(o, records, e) {
        AllowedLater(o, records, n, e);
      }
      if r.SliceRecord? {
        var more := SliceAllowed(o, records, p, r.slice);
      } else if !Silent(r) {
        StatementsAllowed(o, records, r);
      }
    }
  }

  lemma AllowedLater(o: Options, records: seq<Record>, n: nat, e: Event)
    requires n <= |records| && Allowed(o, records[..n], e)
    ensures Allowed(o, records, e)
  {
    hide AsksFor;
  }

  lemma SliceAllowed(o: Options, records: seq<Record>, p: Progress, d: DataSlice) returns (more: seq<Event>)
    ensures OnSlice(p, d).events == p.events + more && forall e :: e in more ==> Allowed(o, records, e)
  {
    more := SliceAside(p, d);
    hide OnSlice;
    forall e | e in more ensures Allowed(o, records, e) {
      assert e.Opened? || e.Fed? || e.Finished?;
    }
  }

  // Transactions only where a single one is asked for.
  ghost predicate May(o: Options, records: seq<Record>, e: Event) {
    if e == Begin || e == Commit || e == Tried(Rollback) then o.singleTransaction else Allowed(o, records, e)
  }

  ghost predicate AllAllowed(o: Options, records: seq<Record>, events: seq<Event>) {
    forall e :: e in events ==> May(o, records, e)
  }

  lemma WholeAllowed(o: Options, records: seq<Record>)
    ensures AllAllowed(o, records, Whole(o, records))
  {
    AskedOnlyIf(o, records);
    hide After, Allowed;
    var p, all := After(o, records), Whole(o, records);
    forall k | 0 <= k < |all| ensures May(o, records, all[k]) {
      NeverTransaction(o, records, all[k]);
      if k < |p.events| {
        assert all[k] == p.events[k];
        assert k < |Start(o).events| ==> p.events[k] == Start(o).events[k];
      } else if p.active.Some? && k == |p.events| {
        FinishAllowed(o, records, p.active.value);
      }
    }
  }

  lemma NeverTransaction(o: Options, records: seq<Record>, e: Event)
    ensures e == Begin || e == Commit || e == Tried(Rollback) ==> !Allowed(o, records, e)
  {
  }

  lemma FinishAllowed(o: Options, records: seq<Record>, sink: Sink)
    ensures Allowed(o, records, Finished(sink))
  {
  }

  lemma WholeBegins(o: Options, records: seq<Record>)
    requires o.singleTransaction
    ensures Whole(o, records)[..1] == [Begin]
  {
    AskedOnlyIf(o, records);
    hide After;
    assert Start(o).events <= After(o, records).events <= Whole(o, records);
  }
}
