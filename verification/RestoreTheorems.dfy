// The PostgreSQL restore of a whole backup stream, from its bytes to the calls to
// the database.
module RestoreTheorems {
  import opened Wrappers
  import opened Codecs
  import opened StreamFormat
  import opened StreamTheorems
  import opened CopyRestore
  import opened CopyTheorems
  import opened RestoreStatements
  import D = StreamDecoder

  // Up to any point sessions have followed each other.
  lemma {:induction false} PrefixInTurn(events: seq<Event>, n: nat)
    requires n <= |events| && Follow(events).Some?
    ensures Follow(events[..n]).Some?
    decreases |events|
  {
    if n == |events| {
      assert events[..n] == events;
    } else {
      var last := |events| - 1;
      PrefixInTurn(events[..last], n);
      assert events[..last][..n] == events[..n];
    }
  }

  lemma {:induction false} NoTrailerInside(parts: seq<Part>)
    requires forall i :: 0 <= i < |parts| ==> WellShaped(parts[i])
    ensures NoTrailer(RecordsOf(parts))
  {
    if parts == [] {
    } else {
      var n := |parts| - 1;
      NoTrailerInside(parts[..n]);
      PartHasNoTrailer(parts[n]);
    }
  }

  lemma BeginningInTurn(events: seq<Event>, asked: seq<Event>)
    requires asked <= events && Follow(events).Some?
    ensures Follow(asked).Some?
  {
    assert events[..|asked|] == asked;
    PrefixInTurn(events, |asked|);
  }

  // The calls for a stream as a backup writes it.
  ghost function Calls(o: Options, parts: seq<Part>): seq<Event>
    requires forall i :: 0 <= i < |parts| ==> WellShaped(parts[i])
  {
    Start(o).events + EventsOf(o, parts) + Ending(o)
  }

  // What the decoder reads of a stream of these records, cut anywhere.
  lemma WrittenCutReads(codec: StreamCodec, body: seq<Record>, cut: nat)
    requires codec.Lawful() && codec.sha256([]) != codec.sha256(MAGIC) && Encodable(codec, body) && NoTrailer(body)
    requires cut <= |Written(codec, body)|
    ensures var (records, end) := D.ReadAll(codec, D.Initial(Written(codec, body)[..cut]));
            var all := body != [] && cut == |Written(codec, body)|;
            && (Arrived(records, end) <==> all) && BeforeTrailer(records) <= body
            && (all ==> BeforeTrailer(records) == body)
  {
    WrittenCut(codec, body, cut);
    IsTrailer(codec, body);
    hide D.ReadAll, Written, Encodable, BeforeTrailer, FramesOf, TrailerFor;
    var (records, end) := D.ReadAll(codec, D.Initial(Written(codec, body)[..cut]));
    if end.Success? {
      StopsAt(records, |body|);
      assert records[..|body|] == body;
    } else {
      assert NoTrailer(records);
      StopsAt(records, |records|);
      assert records[..|records|] == records;
    }
  }

  lemma IsTrailer(codec: StreamCodec, body: seq<Record>)
    requires Encodable(codec, body)
    ensures TrailerFor(codec, FramesOf(codec, body)).TrailerRecord?
  {
  }

  // Of fewer records the calls are the beginning of all calls.
  lemma CallsOfFewer(o: Options, parts: seq<Part>, read: seq<Record>)
    requires forall i :: 0 <= i < |parts| ==> WellShaped(parts[i])
    requires read <= RecordsOf(parts)
    ensures After(o, read).events <= Calls(o, parts)
    ensures Whole(o, RecordsOf(parts)) == Calls(o, parts) && Follow(Calls(o, parts)).Some?
  {
    var body := RecordsOf(parts);
    OneSessionPerTable(o, parts);
    SessionsInTurn(o, body);
    hide After, Closed, Follow, EventsOf, RecordsOf, Start;
    AfterExtends(o, body, |read|);
    assert body[..|read|] == read;
    assert After(o, body).events <= Calls(o, parts);
  }

  // A decoder over bytes that come in pieces, and a restore from it.
  method RestoreBytes(o: Options, codec: StreamCodec, pieces: seq<bytes>, fails: nat -> bool)
    returns (ok: bool, restorer: Restorer, ghost asked: seq<Event>, ghost rolledBack: bool)
    requires codec.Lawful() && forall i :: 0 <= i < |pieces| ==> pieces[i] != []
    ensures restorer.o == o && restorer.fails == fails
    ensures var (records, end) := D.ReadAll(codec, D.Initial(Flatten(pieces)));
            var read := BeforeTrailer(records);
            && asked <= Whole(o, read) && (!Arrived(records, end) ==> asked <= After(o, read).events)
            && restorer.events == asked + (if rolledBack then [Tried(Rollback)] else [])
            && (rolledBack ==> !ok && o.singleTransaction && asked != [] && asked[0] == Begin)
            && (ok ==> asked == Whole(o, read))
            && (ok <==> Arrived(records, end) && AllAccepted(read) && restorer.Clear(Whole(o, read), 0))
            && (Commit in restorer.events <==> ok && o.singleTransaction)
  {
    hide *;
    var reader := new D.Reader(pieces);
    var decoder := new D.Decoder(codec, reader);
    restorer := new Restorer(o, fails);
    ok, asked, rolledBack := restorer.Restore(decoder);
  }

  // The bytes of a backup, in any pieces and possibly cut short, restored with
  // whichever calls failing: the database is asked for one session per table
  // with data, in order, or for the beginning of that, and never has two open.
  // The restore succeeds if and only if the stream is there in full with at least
  // one record, no header is foreign and no call that matters fails; a single
  // transaction is committed exactly then.
  method RestoreBackup(o: Options, codec: StreamCodec, parts: seq<Part>, pieces: seq<bytes>, ghost cut: nat,
                       fails: nat -> bool)
    returns (ok: bool, restorer: Restorer)
    requires codec.Lawful() && codec.sha256([]) != codec.sha256(MAGIC)
    requires forall i :: 0 <= i < |parts| ==> WellShaped(parts[i])
    requires Encodable(codec, RecordsOf(parts)) && cut <= |Written(codec, RecordsOf(parts))|
    requires Flatten(pieces) == Written(codec, RecordsOf(parts))[..cut]
    requires forall i :: 0 <= i < |pieces| ==> pieces[i] != []
    ensures restorer.o == o && restorer.fails == fails
    ensures restorer.events <= Calls(o, parts)
            || (o.singleTransaction && !ok && restorer.events != []
                && restorer.events[|restorer.events| - 1] == Tried(Rollback)
                && restorer.events[..|restorer.events| - 1] <= Calls(o, parts))
    ensures Follow(restorer.events).Some?
    ensures ok ==> restorer.events == Calls(o, parts)
    ensures ok <==>
              && RecordsOf(parts) != [] && cut == |Written(codec, RecordsOf(parts))|
              && AllAccepted(RecordsOf(parts)) && restorer.Clear(Calls(o, parts), 0)
    ensures o.singleTransaction ==> (Commit in restorer.events <==> ok)
    ensures ok ==> forall r :: r in RecordsOf(parts) && r.HeaderRecord? ==> r.header.engine == "postgresql"
    ensures ok ==> forall r :: r in RecordsOf(parts) && r.SchemaRecord? ==>
                     exists m :: Prepared(o, restorer.events, r, m)
    ensures AllAllowed(o, RecordsOf(parts), restorer.events)
    ensures o.singleTransaction && restorer.events != [] ==> restorer.events[0] == Begin
    ensures ok ==> AllLoaded(restorer.events, parts)
    ensures Executed(restorer.events) <= Running(RecordsOf(parts))
    ensures ok ==> Executed(restorer.events) == Running(RecordsOf(parts))
  {
    NoTrailerInside(parts);
    WrittenCutReads(codec, RecordsOf(parts), cut);
    hide *;
    ghost var (records, end) := D.ReadAll(codec, D.Initial(Flatten(pieces)));
    ghost var asked, rolledBack;
    ok, restorer, asked, rolledBack := RestoreBytes(o, codec, pieces, fails);
    AskedOf(o, parts, BeforeTrailer(records), Arrived(records, end), asked);
    WhatWasAsked(o, parts, asked, rolledBack);
    EnginesMatch(RecordsOf(parts));
    AllOfIt(o, parts);
  }

  // Of any beginning of the calls, rolled back or not.
  lemma WhatWasAsked(o: Options, parts: seq<Part>, asked: seq<Event>, rolledBack: bool)
    requires forall i :: 0 <= i < |parts| ==> WellShaped(parts[i])
    requires asked <= Calls(o, parts) && Whole(o, RecordsOf(parts)) == Calls(o, parts) && Follow(asked).Some?
    requires rolledBack ==> o.singleTransaction && asked != [] && asked[0] == Begin
    ensures var events := asked + (if rolledBack then [Tried(Rollback)] else []);
            && AllAllowed(o, RecordsOf(parts), events) && Follow(events).Some?
            && (o.singleTransaction && events != [] ==> events[0] == Begin)
            && Executed(events) <= Running(RecordsOf(parts))
            && (rolledBack ==> events[|events| - 1] == Tried(Rollback) && events[..|events| - 1] == asked)
            && (!rolledBack ==> events == asked)
  {
    NoTrailerInside(parts);
    hide *;
    WholeExecutes(o, RecordsOf(parts));
    AskedAllowed(o, RecordsOf(parts), asked, rolledBack);
    ExecutedBeginning(Calls(o, parts), asked);
    if rolledBack {
      RollbackAside(asked);
    } else {
      assert asked + [] == asked;
    }
  }

  // Of all the calls.
  lemma AllOfIt(o: Options, parts: seq<Part>)
    requires forall i :: 0 <= i < |parts| ==> WellShaped(parts[i])
    requires Whole(o, RecordsOf(parts)) == Calls(o, parts)
    ensures AllLoaded(Calls(o, parts), parts) && Executed(Calls(o, parts)) == Running(RecordsOf(parts))
    ensures forall r :: r in RecordsOf(parts) && r.SchemaRecord? ==> exists m :: Prepared(o, Calls(o, parts), r, m)
  {
    NoTrailerInside(parts);
    hide *;
    TablesAllLoaded(o, parts);
    WholeExecutes(o, RecordsOf(parts));
    PreparedAll(o, RecordsOf(parts));
  }

  lemma PreparedAll(o: Options, records: seq<Record>)
    ensures forall r :: r in records && r.SchemaRecord? ==> exists m :: Prepared(o, Whole(o, records), r, m)
  {
    hide Prepared, Whole;
    forall r | r in records && r.SchemaRecord? ensures exists m :: Prepared(o, Whole(o, records), r, m) {
      var i :| 0 <= i < |records| && records[i] == r;
      PreparedFirst(o, records, i);
    }
  }

  // Each table with data has a session that was fed it.
  ghost predicate AllLoaded(events: seq<Event>, parts: seq<Part>) {
    forall i :: 0 <= i < |parts| && parts[i].TablePart? && Payloads(parts[i].records) != [] ==> Loaded(events, parts[i])
  }

  lemma AskedAllowed(o: Options, records: seq<Record>, asked: seq<Event>, rolledBack: bool)
    requires asked <= Whole(o, records)
    requires rolledBack ==> o.singleTransaction && asked != [] && asked[0] == Begin
    ensures var events := asked + (if rolledBack then [Tried(Rollback)] else []);
            && AllAllowed(o, records, events)
            && (o.singleTransaction && events != [] ==> events[0] == Begin)
  {
    WholeAllowed(o, records);
    if o.singleTransaction {
      WholeBegins(o, records);
      assert asked != [] ==> asked[0] == Whole(o, records)[..1][0];
    }
    hide Whole, Allowed;
    assert forall e :: e in asked ==> e in Whole(o, records);
  }

  lemma TablesAllLoaded(o: Options, parts: seq<Part>)
    requires forall i :: 0 <= i < |parts| ==> WellShaped(parts[i])
    ensures AllLoaded(Calls(o, parts), parts)
  {
    hide Loaded, Payloads;
    forall i | 0 <= i < |parts| && parts[i].TablePart? && Payloads(parts[i].records) != []
      ensures Loaded(Calls(o, parts), parts[i])
    {
      TablesLoaded(o, parts, i);
    }
  }

  lemma EnginesMatch(records: seq<Record>)
    ensures AllAccepted(records) ==> forall r :: r in records && r.HeaderRecord? ==> r.header.engine == "postgresql"
  {
  }

  lemma AskedOf(o: Options, parts: seq<Part>, read: seq<Record>, arrived: bool, asked: seq<Event>)
    requires forall i :: 0 <= i < |parts| ==> WellShaped(parts[i])
    requires read <= RecordsOf(parts) && (arrived ==> read == RecordsOf(parts))
    requires asked <= Whole(o, read) && (!arrived ==> asked <= After(o, read).events)
    ensures asked <= Calls(o, parts) && Whole(o, RecordsOf(parts)) == Calls(o, parts)
    ensures Follow(asked).Some? && asked + [] == asked
  {
    CallsOfFewer(o, parts, read);
    hide *;
    BeginningInTurn(Calls(o, parts), asked);
  }

  lemma RollbackAside(asked: seq<Event>)
    requires Follow(asked).Some?
    ensures var events := asked + [Tried(Rollback)];
            && Executed(events) == Executed(asked)
            && Follow(events).Some? && events[|events| - 1] == Tried(Rollback) && events[..|events| - 1] == asked
  {
    FollowAside(asked, [Tried(Rollback)]);
    ExecutedSnoc(asked, Tried(Rollback));
  }
}
