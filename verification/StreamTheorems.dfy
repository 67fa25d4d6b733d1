// What the decoder accepts is exactly the finished streams, and it gives back
// what the encoder was given.
module StreamTheorems {
  import opened Wrappers
  import opened Codecs
  import opened StreamFormat
  import opened StreamDecoder

  // A frame whose payload is a record of its kind.
  predicate Sound(c: StreamCodec, f: Frame) {
    Fits(f) && c.parse(f.kind, f.payload).Some?
  }

  function RecordIn(c: StreamCodec, f: Frame): Record
    requires Sound(c, f)
  {
    c.parse(f.kind, f.payload).value
  }

  ghost predicate DataFrames(c: StreamCodec, frames: seq<Frame>) {
    forall i :: 0 <= i < |frames| ==> Sound(c, frames[i]) && frames[i].kind != Trailer
  }

  // The trailer speaks of the frames before it, magic included.
  ghost predicate Closes(c: StreamCodec, before: seq<Frame>, last: Frame)
    requires AllFit(before)
  {
    && Sound(c, last) && last.kind == Trailer
    && var r := RecordIn(c, last);
       r.TrailerRecord? && r.trailer.totalRecords == |before|
       && r.trailer.streamHash == c.sha256(MAGIC + PrintAll(c, before))
  }

  // The reference grammar: data frames, then one matching trailer.
  ghost predicate Complete(c: StreamCodec, frames: seq<Frame>) {
    && frames != []
    && DataFrames(c, frames[..|frames| - 1])
    && Closes(c, frames[..|frames| - 1], frames[|frames| - 1])
  }

  ghost function RecordsIn(c: StreamCodec, frames: seq<Frame>): (records: seq<Record>)
    requires forall i :: 0 <= i < |frames| ==> Sound(c, frames[i])
    ensures |records| == |frames|
    ensures forall i :: 0 <= i < |frames| ==> records[i] == RecordIn(c, frames[i])
  {
    if frames == [] then [] else [RecordIn(c, frames[0])] + RecordsIn(c, frames[1..])
  }

  // A reader that has taken the magic and some frames.
  ghost predicate Past(c: StreamCodec, s: State, done: seq<Frame>) {
    && s.magicChecked && !s.reachedEof && !s.trailerVerified
    && DataFrames(c, done)
    && s.recordsRead == |done| && s.hashed == MAGIC + PrintAll(c, done)
    && s.bytesRead == |s.hashed|
  }

  // ----------------------------------------------------------- one frame

  lemma NextReads(c: StreamCodec, s: State, f: Frame, tail: bytes)
    requires c.Lawful() && s.magicChecked && !s.reachedEof && Sound(c, f)
    requires s.rest == Print(c, f) + tail
    ensures var covered := Head(KindByte(f.kind), f.flags, |f.payload|) + f.payload;
            Next(c, s)
            == Parsed(c, s.(rest := tail, recordsRead := s.recordsRead + 1,
                            bytesRead := s.bytesRead + 10 + |f.payload|),
                      f.kind, covered[..6], f.payload, Le32(c.crc32(covered)))
  {
    var head := Head(KindByte(f.kind), f.flags, |f.payload|);
    var crc := Le32(c.crc32(head + f.payload));
    Le32Inverse(|f.payload|);
    Le32Inverse(c.crc32(head + f.payload));
    KindByteExact(KindByte(f.kind), f.kind);
    assert s.rest == head + (f.payload + (crc + tail));
    assert s.rest[..6] == head && s.rest[6..] == f.payload + (crc + tail);
    assert head[2..] == Le32(|f.payload|);
    assert (f.payload + (crc + tail))[..|f.payload|] == f.payload;
    assert (f.payload + (crc + tail))[|f.payload|..] == crc + tail;
    assert (crc + tail)[..4] == crc && (crc + tail)[4..] == tail;
    assert (head + f.payload)[..6] == head;
  }

  lemma PrintSplit(c: StreamCodec, f: Frame, hashed: bytes)
    requires Fits(f)
    ensures var covered := Head(KindByte(f.kind), f.flags, |f.payload|) + f.payload;
            hashed + covered[..6] + f.payload + Le32(c.crc32(covered)) == hashed + Print(c, f)
  {
  }

  // Whatever the decoder returns a record for was a printed frame.
  lemma NextFinds(c: StreamCodec, s: State) returns (f: Frame)
    requires c.Lawful() && s.magicChecked && !s.reachedEof
    requires Next(c, s).1.Success? && Next(c, s).1.value.Some?
    ensures Sound(c, f) && RecordIn(c, f) == Next(c, s).1.value.value
    ensures s.rest == Print(c, f) + Next(c, s).0.rest
  {
    var head := s.rest[..6];
    var size := FromLe32(head[2..]);
    var body := s.rest[6..];
    var payload := body[..size];
    var crc := body[size..][..4];
    var tail := body[size..][4..];
    f := Frame(KindOfByte(head[0]).value, head[1], payload);
    KindByteExact(head[0], f.kind);
    FromLe32Inverse(head[2..]);
    FromLe32Inverse(crc);
    assert head == Head(KindByte(f.kind), f.flags, |payload|);
    assert Print(c, f) == head + payload + crc;
    assert s.rest == head + payload + crc + tail;
  }

  // -------------------------------------------------- sequences of frames

  lemma {:induction false} PrintAllCons(c: StreamCodec, f: Frame, frames: seq<Frame>)
    requires Fits(f) && AllFit(frames)
    ensures AllFit([f] + frames) && PrintAll(c, [f] + frames) == Print(c, f) + PrintAll(c, frames)
  {
    hide Print;
    if frames == [] {
      assert ([f] + frames)[..0] == [];
    } else {
      var front := frames[..|frames| - 1];
      var last := frames[|frames| - 1];
      PrintAllCons(c, f, front);
      assert ([f] + frames)[..|frames|] == [f] + front && ([f] + frames)[|frames|] == last;
      assert Print(c, f) + (PrintAll(c, front) + Print(c, last)) == Print(c, f) + PrintAll(c, front) + Print(c, last);
    }
  }

  // A reader after one more data frame, or after the trailer.
  function Advanced(c: StreamCodec, s: State, f: Frame, tail: bytes): State
    requires Fits(f)
  {
    s.(rest := tail, recordsRead := s.recordsRead + 1, bytesRead := s.bytesRead + 10 + |f.payload|,
       hashed := s.hashed + Print(c, f))
  }

  function Ended(s: State): State {
    s.(trailerVerified := true, reachedEof := true)
  }

  lemma NextData(c: StreamCodec, s: State, f: Frame, tail: bytes)
    requires c.Lawful() && s.magicChecked && !s.reachedEof && Sound(c, f) && f.kind != Trailer
    requires s.rest == Print(c, f) + tail
    ensures Next(c, s) == (Advanced(c, s, f, tail), Success(Some(RecordIn(c, f))))
  {
    hide Next, ReadAll, PrintAll, Print;
    NextReads(c, s, f, tail);
    PrintSplit(c, f, s.hashed);
  }

  lemma NextTrailer(c: StreamCodec, s: State, done: seq<Frame>, f: Frame, tail: bytes)
    requires c.Lawful() && Past(c, s, done) && Closes(c, done, f)
    requires s.rest == Print(c, f) + tail
    ensures Next(c, s) == (Ended(Advanced(c, s, f, tail)), Success(Some(RecordIn(c, f))))
  {
    hide Next, ReadAll, PrintAll, Print;
    NextReads(c, s, f, tail);
    PrintSplit(c, f, s.hashed);
  }

  lemma ReadsData(c: StreamCodec, s: State, done: seq<Frame>, f: Frame, tail: bytes)
    requires c.Lawful() && Past(c, s, done) && Sound(c, f) && f.kind != Trailer
    requires s.rest == Print(c, f) + tail
    ensures var after := Advanced(c, s, f, tail);
            && Past(c, after, done + [f])
            && ReadAll(c, s) == ([RecordIn(c, f)] + ReadAll(c, after).0, ReadAll(c, after).1)
  {
    hide Next, ReadAll, PrintAll, Print;
    NextData(c, s, f, tail);
    ReadAllStep(c, s, Next(c, s).1);
    AdvancedPast(c, s, done, f, tail);
  }

  lemma AdvancedPast(c: StreamCodec, s: State, done: seq<Frame>, f: Frame, tail: bytes)
    requires Past(c, s, done) && Sound(c, f) && f.kind != Trailer
    ensures Past(c, Advanced(c, s, f, tail), done + [f])
  {
  }

  lemma PrintLength(c: StreamCodec, f: Frame)
    requires Fits(f)
    ensures |Print(c, f)| == 10 + |f.payload|
  {
  }

  lemma ReadsTrailer(c: StreamCodec, s: State, done: seq<Frame>, f: Frame, tail: bytes)
    requires c.Lawful() && Past(c, s, done) && Closes(c, done, f)
    requires s.rest == Print(c, f) + tail
    ensures ReadAll(c, s) == ([RecordIn(c, f)], Success(Ended(Advanced(c, s, f, tail))))
  {
    hide Next, ReadAll, PrintAll, Print;
    NextTrailer(c, s, done, f, tail);
    ReadAllStep(c, s, Next(c, s).1);
    var after := Ended(Advanced(c, s, f, tail));
    AtEof(c, after);
    ReadAllStep(c, after, Next(c, after).1);
    assert [RecordIn(c, f)] + [] == [RecordIn(c, f)];
  }

  lemma AtEof(c: StreamCodec, s: State)
    requires s.reachedEof
    ensures Next(c, s) == (s, Success(None))
  {
  }

  // A successful reading starts with a frame that may be there.
  lemma ReadingStarts(c: StreamCodec, s: State, done: seq<Frame>) returns (f: Frame, tail: bytes)
    requires c.Lawful() && Past(c, s, done) && ReadAll(c, s).1.Success?
    ensures Sound(c, f) && s.rest == Print(c, f) + tail
    ensures f.kind != Trailer || Closes(c, done, f)
  {
    hide ReadAll, PrintAll, Print;
    ReadAllStep(c, s, Next(c, s).1);
    NeverIdle(c, s, done);
    f, tail := FrameRead(c, s, done);
  }

  lemma NeverIdle(c: StreamCodec, s: State, done: seq<Frame>)
    requires Past(c, s, done)
    ensures Next(c, s).1.Success? ==> Next(c, s).1.value.Some?
  {
  }

  lemma FrameRead(c: StreamCodec, s: State, done: seq<Frame>) returns (f: Frame, tail: bytes)
    requires c.Lawful() && Past(c, s, done) && Next(c, s).1.Success? && Next(c, s).1.value.Some?
    ensures Sound(c, f) && s.rest == Print(c, f) + tail
    ensures f.kind != Trailer || Closes(c, done, f)
  {
    hide Next, PrintAll, Print;
    f := NextFinds(c, s);
    tail := Next(c, s).0.rest;
    NextReads(c, s, f, tail);
  }

  // The remaining frames `todo`, the last of which closes the stream, are all
  // read, and nothing after them is.
  lemma {:induction false} ReadsToTheEnd(c: StreamCodec, s: State, done: seq<Frame>, todo: seq<Frame>, tail: bytes)
    requires c.Lawful() && Past(c, s, done) && Complete(c, done + todo) && todo != []
    requires AllSound(c, todo) && s.rest == PrintAll(c, todo) + tail
    ensures var (records, end) := ReadAll(c, s);
            && records == RecordsIn(c, todo)
            && end.Success? && end.value.rest == tail && end.value.trailerVerified && end.value.reachedEof
            && end.value.recordsRead == |done| + |todo|
            && end.value.bytesRead == |Body(c, done + todo)|
    decreases |todo|
  {
    hide ReadAll, Print, PrintAll, Closes, Sound, RecordsIn, Complete, AllSound, Body, RecordIn;
    var f := todo[0];
    var rest := todo[1..];
    assert todo == [f] + rest;
    CompleteSplit(c, done, f, rest);
    FirstOf(c, f, rest, tail);
    var after := Advanced(c, s, f, PrintAll(c, rest) + tail);
    if rest == [] {
      ReadsTrailer(c, s, done, f, tail);
      EndCounts(c, s, done, f, tail);
      assert done + todo == done + [f];
    } else {
      ReadsData(c, s, done, f, PrintAll(c, rest) + tail);
      assert (done + [f]) + rest == done + todo;
      ReadsToTheEnd(c, after, done + [f], rest, tail);
    }
  }

  lemma FirstOf(c: StreamCodec, f: Frame, rest: seq<Frame>, tail: bytes)
    requires AllSound(c, [f] + rest)
    ensures Sound(c, f) && Fits(f) && AllSound(c, rest) && AllFit(rest) && AllFit([f] + rest)
    ensures RecordsIn(c, [f] + rest) == [RecordIn(c, f)] + RecordsIn(c, rest)
    ensures PrintAll(c, [f] + rest) + tail == Print(c, f) + (PrintAll(c, rest) + tail)
    ensures rest == [] ==> PrintAll(c, rest) + tail == tail && RecordsIn(c, rest) == []
  {
    hide Print, PrintAll;
    assert ([f] + rest)[0] == f && ([f] + rest)[1..] == rest;
    PrintAllCons(c, f, rest);
    PrintNothing(c);
    Regroup(Print(c, f), PrintAll(c, rest), tail);
  }

  // ------------------------------------------------------ streams cut short

  // What is read of a stream is the beginning of what would be read if more had
  // come; and all of it only if reading succeeds.
  lemma {:induction false} MoreInput(c: StreamCodec, s: State, done: seq<Frame>, extra: bytes)
    requires c.Lawful() && Past(c, s, done)
    ensures var (cut, whole) := (ReadAll(c, s), ReadAll(c, s.(rest := s.rest + extra)));
            && cut.0 <= whole.0
            && (cut.1.Success? || whole.1.Failure? || |cut.0| < |whole.0|)
    decreases |s.rest|
  {
    hide ReadAll, Print, PrintAll, Closes, Next;
    var t := s.(rest := s.rest + extra);
    ReadAllStep(c, s, Next(c, s).1);
    NeverIdle(c, s, done);
    if Next(c, s).1.Failure? {
      ReadAllStep(c, t, Next(c, t).1);
      NeverIdle(c, t, done);
    } else {
      var f, tail := FrameRead(c, s, done);
      Regroup(Print(c, f), tail, extra);
      if f.kind == Trailer {
        ReadsTrailer(c, s, done, f, tail);
        ReadsTrailer(c, t, done, f, tail + extra);
      } else {
        PrintLength(c, f);
        ReadsData(c, s, done, f, tail);
        ReadsData(c, t, done, f, tail + extra);
        MoreInput(c, Advanced(c, s, f, tail), done + [f], extra);
      }
    }
  }

  lemma PrintNothing(c: StreamCodec)
    ensures PrintAll(c, []) == []
  {
  }

  lemma CompleteSplit(c: StreamCodec, done: seq<Frame>, f: Frame, rest: seq<Frame>)
    requires DataFrames(c, done) && Complete(c, done + ([f] + rest))
    ensures Sound(c, f)
    ensures if rest == [] then Closes(c, done, f) else f.kind != Trailer
  {
    hide PrintAll;
    var all := done + ([f] + rest);
    assert all[|done|] == f;
    if rest == [] {
      assert all[..|all| - 1] == done;
    } else {
      assert all[..|all| - 1][|done|] == f;
    }
  }

  lemma EndCounts(c: StreamCodec, s: State, done: seq<Frame>, f: Frame, tail: bytes)
    requires Past(c, s, done) && Fits(f)
    ensures AllFit(done + [f]) && Advanced(c, s, f, tail).bytesRead == |Body(c, done + [f])|
  {
  }

  ghost predicate AllSound(c: StreamCodec, frames: seq<Frame>) {
    forall i :: 0 <= i < |frames| ==> Sound(c, frames[i])
  }

  // If reading succeeds, what was read is frames that complete the stream.
  lemma {:induction false} ReadWasFrames(c: StreamCodec, s: State, done: seq<Frame>)
    returns (todo: seq<Frame>, tail: bytes)
    requires c.Lawful() && Past(c, s, done) && ReadAll(c, s).1.Success?
    ensures todo != [] && Complete(c, done + todo) && AllSound(c, todo)
    ensures s.rest == PrintAll(c, todo) + tail
    decreases |s.rest|
  {
    hide ReadAll, Print, PrintAll, Closes;
    var f, rest := ReadingStarts(c, s, done);
    PrintLength(c, f);
    if f.kind == Trailer {
      todo, tail := [f], rest;
      assert (done + todo)[..|done|] == done;
      PrintAllCons(c, f, []);
      PrintNothing(c);
      assert [f] + [] == [f] && Print(c, f) + [] == Print(c, f);
    } else {
      ReadsData(c, s, done, f, rest);
      var more, left := ReadWasFrames(c, Advanced(c, s, f, rest), done + [f]);
      todo, tail := [f] + more, left;
      assert done + todo == (done + [f]) + more;
      PrintAllCons(c, f, more);
      assert Print(c, f) + (PrintAll(c, more) + left) == Print(c, f) + PrintAll(c, more) + left;
    }
  }

  ghost function Body(c: StreamCodec, frames: seq<Frame>): bytes
    requires AllFit(frames)
  {
    MAGIC + PrintAll(c, frames)
  }

  // ---------------------------------------------------------------- theorems

  function AfterMagic(rest: bytes): State {
    State(rest, true, 0, 4, false, false, MAGIC)
  }

  lemma MagicFirst(c: StreamCodec, rest: bytes)
    ensures ReadAll(c, Initial(MAGIC + rest)) == ReadAll(c, AfterMagic(rest))
  {
    var s := Initial(MAGIC + rest);
    assert s.rest[..4] == MAGIC && s.rest[4..] == rest;
    assert [] + MAGIC == MAGIC;
    assert CheckMagic(s) == (AfterMagic(rest), true);
    assert Next(c, s) == Next(c, AfterMagic(rest));
  }

  // Any stream of the grammar is accepted, whatever follows it, and gives its
  // records; the bytes after the trailer are left unread.
  lemma AcceptsComplete(c: StreamCodec, frames: seq<Frame>, tail: bytes)
    requires c.Lawful() && Complete(c, frames)
    ensures AllSound(c, frames) && AllFit(frames)
    ensures var (records, end) := ReadAll(c, Initial(Body(c, frames) + tail));
            && records == RecordsIn(c, frames)
            && end.Success? && end.value.rest == tail && end.value.trailerVerified
            && end.value.recordsRead == |frames| && end.value.bytesRead == |Body(c, frames)|
  {
    hide ReadAll, Print, PrintAll, Closes;
    CompleteSound(c, frames);
    var rest := PrintAll(c, frames) + tail;
    assert Body(c, frames) + tail == MAGIC + rest;
    MagicFirst(c, rest);
    PrintNothing(c);
    assert [] + frames == frames && MAGIC + [] == MAGIC;
    ReadsToTheEnd(c, AfterMagic(rest), [], frames, tail);
  }

  lemma CompleteSound(c: StreamCodec, frames: seq<Frame>)
    requires Complete(c, frames)
    ensures AllSound(c, frames) && AllFit(frames)
  {
  }

  // And nothing else is: an accepted input is the magic, the re-printed frames
  // of a complete stream with matching checksums, count and hash, and what was
  // left unread.
  lemma AcceptedIsComplete(c: StreamCodec, input: bytes) returns (frames: seq<Frame>)
    requires c.Lawful() && ReadAll(c, Initial(input)).1.Success?
    ensures Complete(c, frames) && AllSound(c, frames) && AllFit(frames)
    ensures input == Body(c, frames) + ReadAll(c, Initial(input)).1.value.rest
    ensures ReadAll(c, Initial(input)).0 == RecordsIn(c, frames)
  {
    hide ReadAll, Print, PrintAll, Closes;
    var rest := AcceptedHasMagic(c, input);
    MagicFirst(c, rest);
    PrintNothing(c);
    assert MAGIC + [] == MAGIC;
    var todo, tail := ReadWasFrames(c, AfterMagic(rest), []);
    frames := todo;
    assert [] + frames == frames;
    assert input == Body(c, frames) + tail;
    AcceptsComplete(c, frames, tail);
  }

  lemma AcceptedHasMagic(c: StreamCodec, input: bytes) returns (rest: bytes)
    requires ReadAll(c, Initial(input)).1.Success?
    ensures input == MAGIC + rest
  {
    var s := Initial(input);
    ReadAllStep(c, s, Next(c, s).1);
    assert CheckMagic(s).1;
    rest := input[4..];
  }

  // Every strict prefix of a complete stream ends in an error.
  lemma PrefixRejected(c: StreamCodec, frames: seq<Frame>, cut: nat)
    requires c.Lawful() && Complete(c, frames) && AllFit(frames) && cut < |Body(c, frames)|
    ensures ReadAll(c, Initial(Body(c, frames)[..cut])).1.Failure?
  {
    hide *;
    var whole := Body(c, frames);
    var part := whole[..cut];
    if ReadAll(c, Initial(part)).1.Success? {
      var found := AcceptedIsComplete(c, part);
      var left := ReadAll(c, Initial(part)).1.value.rest;
      assert whole == Body(c, found) + (left + whole[cut..]);
      assert whole + [] == whole;
      AcceptsComplete(c, frames, []);
      AcceptsComplete(c, found, left + whole[cut..]);
      assert false;
    }
  }

  lemma NoMagicNoRecords(c: StreamCodec, input: bytes)
    requires |input| < 4
    ensures ReadAll(c, Initial(input)).0 == [] && ReadAll(c, Initial(input)).1.Failure?
  {
  }

  // A stream cut anywhere gives a beginning of its records and then an error,
  // unless nothing was cut.
  lemma CutReads(c: StreamCodec, frames: seq<Frame>, cut: nat)
    requires c.Lawful() && Complete(c, frames) && AllFit(frames) && cut <= |Body(c, frames)|
    ensures AllSound(c, frames)
    ensures var (records, end) := ReadAll(c, Initial(Body(c, frames)[..cut]));
            && records <= RecordsIn(c, frames) && (end.Success? <==> cut == |Body(c, frames)|)
            && (|records| == |frames| <==> end.Success?)
  {
    hide ReadAll, PrintAll, Closes, RecordsIn;
    var whole := Body(c, frames);
    AcceptsComplete(c, frames, []);
    assert whole + [] == whole;
    if cut == |whole| {
      assert whole[..cut] == whole;
    } else {
      PrefixRejected(c, frames, cut);
      if cut < 4 {
        NoMagicNoRecords(c, whole[..cut]);
      } else {
        var part, extra := whole[4..cut], whole[cut..];
        assert whole[..4] == MAGIC;
        assert whole[..cut] == MAGIC + part && whole == MAGIC + (part + extra);
        MagicFirst(c, part);
        MagicFirst(c, part + extra);
        PastMagic(c, part);
        MoreInput(c, AfterMagic(part), [], extra);
        assert AfterMagic(part).(rest := part + extra) == AfterMagic(part + extra);
      }
    }
  }

  lemma PastMagic(c: StreamCodec, rest: bytes)
    ensures Past(c, AfterMagic(rest), [])
  {
    assert MAGIC + [] == MAGIC;
  }

  // ------------------------------------------------------------ round trip

  // Every record fits into a frame, and so does the trailer.
  ghost predicate Encodable(c: StreamCodec, records: seq<Record>) {
    AllFit(FramesOf(c, records)) && Fits(FrameOf(c, TrailerFor(c, FramesOf(c, records))))
  }

  // The bytes a backup of `records` writes.
  ghost function Written(c: StreamCodec, records: seq<Record>): bytes
    requires Encodable(c, records)
  {
    Body(c, FramesOf(c, records) + [FrameOf(c, TrailerFor(c, FramesOf(c, records)))])
  }

  lemma WrittenIsComplete(c: StreamCodec, records: seq<Record>)
    requires c.Lawful() && records != [] && forall i :: 0 <= i < |records| ==> !records[i].TrailerRecord?
    requires Encodable(c, records)
    ensures var frames := FramesOf(c, records) + [FrameOf(c, TrailerFor(c, FramesOf(c, records)))];
            && Complete(c, frames)
            && AllSound(c, frames)
            && RecordsIn(c, frames) == records + [TrailerFor(c, FramesOf(c, records))]
  {
    hide PrintAll, Print, Stream;
    var data := FramesOf(c, records);
    var trailer := TrailerFor(c, data);
    var frames := data + [FrameOf(c, trailer)];
    assert frames[..|frames| - 1] == data;
    forall i | 0 <= i < |data|
      ensures Sound(c, data[i]) && RecordIn(c, data[i]) == records[i] && data[i].kind != Trailer
    {
      FrameReads(c, records[i]);
    }
    FrameReads(c, trailer);
    StreamIsBody(c, data);
    assert Closes(c, data, FrameOf(c, trailer));
    hide Sound, Closes, FrameOf, TrailerFor, FramesOf, RecordIn;
    CompleteSound(c, frames);
    forall i | 0 <= i < |frames| ensures RecordsIn(c, frames)[i] == (records + [trailer])[i] {
      if i < |data| { assert frames[i] == data[i]; }
    }
  }

  lemma FrameReads(c: StreamCodec, r: Record)
    requires c.Lawful() && Fits(FrameOf(c, r))
    ensures Sound(c, FrameOf(c, r)) && RecordIn(c, FrameOf(c, r)) == r && FrameOf(c, r).kind == KindOf(r)
  {
    assert c.parse(KindOf(r), c.render(r)) == Some(r);
  }

  lemma StreamIsBody(c: StreamCodec, frames: seq<Frame>)
    requires AllFit(frames) && frames != []
    ensures Stream(c, frames) == Body(c, frames)
  {
  }

  // Decoding gives back exactly what was encoded, then a verified trailer, if
  // and only if something was encoded: the trailer of an empty backup carries
  // the digest of nothing, while the decoder has already hashed the magic.
  lemma RoundTripExactly(c: StreamCodec, records: seq<Record>)
    requires c.Lawful() && c.sha256([]) != c.sha256(MAGIC)
    requires forall i :: 0 <= i < |records| ==> !records[i].TrailerRecord?
    requires Encodable(c, records)
    ensures var (read, end) := ReadAll(c, Initial(Written(c, records)));
            && (end.Success? <==> records != [])
            && (records != [] ==>
                  && read == records + [TrailerFor(c, FramesOf(c, records))]
                  && end.value.trailerVerified && end.value.rest == [])
  {
    var input := Written(c, records);
    if records != [] {
      WrittenIsComplete(c, records);
      var frames := FramesOf(c, records) + [FrameOf(c, TrailerFor(c, FramesOf(c, records)))];
      AcceptsComplete(c, frames, []);
      assert input + [] == input;
    } else {
      EmptyRejected(c);
    }
  }

  lemma EmptyRejected(c: StreamCodec)
    requires c.Lawful() && c.sha256([]) != c.sha256(MAGIC) && Encodable(c, [])
    ensures ReadAll(c, Initial(Written(c, []))).0 == [] && ReadAll(c, Initial(Written(c, []))).1.Failure?
  {
    var trailer := TrailerFor(c, []);
    var f := FrameOf(c, trailer);
    assert c.parse(Trailer, c.render(trailer)) == Some(trailer);
    hide ReadAll, Print, PrintAll, FrameOf, TrailerFor;
    assert FramesOf(c, []) == [] && [] + [f] == [f];
    PrintAllCons(c, f, []);
    PrintNothing(c);
    assert [f] + [] == [f] && Print(c, f) + [] == Print(c, f);
    MagicFirst(c, Print(c, f));
    DigestOfNothing(c, AfterMagic(Print(c, f)), f);
  }

  lemma DigestOfNothing(c: StreamCodec, s: State, f: Frame)
    requires c.Lawful() && Sound(c, f) && f.kind == Trailer && s == AfterMagic(Print(c, f))
    requires RecordIn(c, f).TrailerRecord? && RecordIn(c, f).trailer.streamHash != c.sha256(MAGIC)
    ensures ReadAll(c, s).0 == [] && ReadAll(c, s).1.Failure?
  {
    hide Next, ReadAll, Print;
    assert s.rest == Print(c, f) + [];
    NextReads(c, s, f, []);
    ReadAllStep(c, s, Next(c, s).1);
  }

  // The stream without records, cut anywhere, gives nothing but an error.
  lemma EmptyCut(c: StreamCodec, cut: nat)
    requires c.Lawful() && c.sha256([]) != c.sha256(MAGIC) && Encodable(c, []) && cut <= |Written(c, [])|
    ensures var (records, end) := ReadAll(c, Initial(Written(c, [])[..cut])); records == [] && end.Failure?
  {
    hide ReadAll, PrintAll, Written, Encodable;
    var whole := Written(c, []);
    EmptyRejected(c);
    if cut < 4 {
      NoMagicNoRecords(c, whole[..cut]);
    } else {
      var part, extra := whole[4..cut], whole[cut..];
      StartsWithMagic(c, []);
      assert whole[..cut] == MAGIC + part && whole == MAGIC + (part + extra);
      MagicFirst(c, part);
      MagicFirst(c, part + extra);
      PastMagic(c, part);
      MoreInput(c, AfterMagic(part), [], extra);
      assert AfterMagic(part).(rest := part + extra) == AfterMagic(part + extra);
      if ReadAll(c, Initial(whole[..cut])).1.Success? {
        var found := AcceptedIsComplete(c, whole[..cut]);
      }
    }
  }

  lemma StartsWithMagic(c: StreamCodec, records: seq<Record>)
    requires Encodable(c, records)
    ensures |Written(c, records)| >= 4 && Written(c, records)[..4] == MAGIC
  {
    hide PrintAll;
  }

  ghost function FramesWritten(c: StreamCodec, records: seq<Record>): (frames: seq<Frame>)
    requires Encodable(c, records)
    ensures AllFit(frames) && Written(c, records) == Body(c, frames) && |frames| == |records| + 1
  {
    FramesOf(c, records) + [FrameOf(c, TrailerFor(c, FramesOf(c, records)))]
  }

  // The stream of some records, cut anywhere, reads as a beginning of them and
  // then an error; in full as all of them and a trailer, unless there are none.
  lemma WrittenCut(c: StreamCodec, records: seq<Record>, cut: nat)
    requires c.Lawful() && c.sha256([]) != c.sha256(MAGIC) && Encodable(c, records)
    requires (forall i :: 0 <= i < |records| ==> !records[i].TrailerRecord?) && cut <= |Written(c, records)|
    ensures var (read, end) := ReadAll(c, Initial(Written(c, records)[..cut]));
            && (end.Success? <==> records != [] && cut == |Written(c, records)|)
            && (if end.Success? then read == records + [TrailerFor(c, FramesOf(c, records))] else read <= records)
  {
    hide ReadAll, Written, Body, FramesOf, FrameOf, TrailerFor, Complete, Encodable, AllFit;
    if records == [] {
      EmptyCut(c, cut);
    } else {
      CutToFrames(c, records);
      CutReads(c, FramesWritten(c, records), cut);
    }
  }

  lemma CutToFrames(c: StreamCodec, records: seq<Record>)
    requires c.Lawful() && records != [] && forall i :: 0 <= i < |records| ==> !records[i].TrailerRecord?
    requires Encodable(c, records)
    ensures Complete(c, FramesWritten(c, records)) && AllSound(c, FramesWritten(c, records))
    ensures RecordsIn(c, FramesWritten(c, records)) == records + [TrailerFor(c, FramesOf(c, records))]
  {
    WrittenIsComplete(c, records);
  }

  // The trailer counts the records and the bytes before itself, and digests those
  // bytes.
  lemma TrailerSpeaks(c: StreamCodec, records: seq<Record>)
    requires records != [] && Encodable(c, records)
    ensures TrailerFor(c, FramesOf(c, records)).TrailerRecord?
    ensures var trailer := TrailerFor(c, FramesOf(c, records));
            var stream, size := Written(c, records), trailer.trailer.totalLogicalBytes;
            && trailer.trailer.totalRecords == |records| && size <= |stream|
            && stream[size..] == Print(c, FrameOf(c, trailer))
            && trailer.trailer.streamHash == c.sha256(stream[..size])
  {
    var data := FramesOf(c, records);
    var trailer := TrailerFor(c, data);
    StreamIsBody(c, data);
    PrintAllStep(c, data, FrameOf(c, trailer));
    hide PrintAll, Print;
    assert Written(c, records) == Stream(c, data) + Print(c, FrameOf(c, trailer)) by {
      Regroup(MAGIC, PrintAll(c, data), Print(c, FrameOf(c, trailer)));
    }
  }
}
