// The encoder: frames appended to a writer, with a running hash and counters.
module StreamEncoder {
  import opened Wrappers
  import opened Codecs
  import opened StreamFormat

  class Encoder {
    const c: StreamCodec
    var writer: bytes
    var recordCount: nat
    var totalBytes: nat
    var hashed: bytes         // everything fed to the running SHA-256
    var magicWritten: bool
    ghost var frames: seq<Frame>

    ghost predicate Valid()
      reads this
    {
      && AllFit(frames)
      && writer == Stream(c, frames) == hashed
      && recordCount == |frames| && totalBytes == |writer|
      && magicWritten == (frames != [])
    }

    constructor (c: StreamCodec)
      ensures Valid() && frames == [] && this.c == c
    {
      this.c := c;
      writer, recordCount, totalBytes, hashed, magicWritten := [], 0, 0, [], false;
      frames := [];
    }

    method EnsureMagic()
      requires Valid()
      modifies this`writer, this`hashed, this`totalBytes, this`magicWritten
      ensures magicWritten
      ensures writer == hashed == MAGIC + PrintAll(c, frames) && totalBytes == |writer|
    {
      AtMagic(c, frames);
      if !magicWritten {
        writer := writer + MAGIC;
        hashed := hashed + MAGIC;
        totalBytes := totalBytes + |MAGIC|;
        magicWritten := true;
      }
    }

    // Four writes to the pipe.
    method Emit(head: bytes, size: bytes, payload: bytes, crc: bytes)
      modifies this`writer
      ensures writer == old(writer) + head + size + payload + crc
    {
      writer := writer + head;
      writer := writer + size;
      writer := writer + payload;
      writer := writer + crc;
    }

    // The same four into the running digest.
    method Digest(head: bytes, size: bytes, payload: bytes, crc: bytes)
      modifies this`hashed
      ensures hashed == old(hashed) + head + size + payload + crc
    {
      hashed := hashed + head;
      hashed := hashed + size;
      hashed := hashed + payload;
      hashed := hashed + crc;
    }

    // Refused without a trace, or appended as one more frame.
    method WriteRawRecord(kind: Kind, flags: byte, payload: bytes) returns (r: Result<(), Error>)
      requires Valid()
      modifies this
      ensures Valid()
      ensures r.Failure? <==> |payload| > 32 * 1024 * 1024
      ensures frames == if r.Failure? then old(frames) else old(frames) + [Frame(kind, flags, payload)]
    {
      if |payload| > MAX_PAYLOAD {
        return Failure(Format);
      }
      hide PrintAll, Print, Stream, Le32, KindByte, AllFit;
      EnsureMagic();
      ghost var before := writer;
      var head := [KindByte(kind), flags];
      var size := Le32(|payload|);
      var crc := Le32(c.crc32(head + size + payload));

      Emit(head, size, payload, crc);
      Digest(head, size, payload, crc);
      totalBytes := totalBytes + 1 + 1 + 4 + |payload| + 4;
      recordCount := recordCount + 1;
      ghost var f := Frame(kind, flags, payload);
      FrameWritten(c, frames, f, before, head, size, crc);
      frames := frames + [f];
      return Success(());
    }

    method WriteRecord(record: Record) returns (r: Result<(), Error>)
      requires Valid()
      modifies this
      ensures Valid()
      ensures r.Failure? <==> !Fits(FrameOf(c, record))
      ensures frames == if r.Failure? then old(frames) else old(frames) + [FrameOf(c, record)]
    {
      r := WriteRawRecord(KindOf(record), 0, c.render(record));
    }

    // The digest in the trailer is taken before the magic is ensured: after no
    // record at all it is the digest of nothing.
    method Finish() returns (r: Result<(nat, string), Error>)
      requires Valid()
      modifies this
      ensures Valid()
      ensures r.Failure? <==> !Fits(FrameOf(c, TrailerFor(c, old(frames))))
      ensures r.Success? ==>
                && frames == old(frames) + [FrameOf(c, TrailerFor(c, old(frames)))]
                && r.value == (|writer|, c.sha256(Stream(c, old(frames))))
    {
      var hash := c.sha256(hashed);
      var trailer := StreamTrailer(recordCount, totalBytes, hash);
      var written := WriteRecord(TrailerRecord(trailer));
      if written.Failure? {
        return Failure(written.error);
      }
      return Success((totalBytes, hash));
    }
  }

  lemma AtMagic(c: StreamCodec, frames: seq<Frame>)
    requires AllFit(frames)
    ensures if frames == [] then Stream(c, frames) == [] && [] + MAGIC == MAGIC + PrintAll(c, frames)
            else Stream(c, frames) == MAGIC + PrintAll(c, frames)
  {
  }

  // The four writes of a frame extend the stream by exactly that frame.
  lemma FrameWritten(c: StreamCodec, frames: seq<Frame>, f: Frame, before: bytes, head: bytes, size: bytes, crc: bytes)
    requires AllFit(frames) && Fits(f) && before == MAGIC + PrintAll(c, frames)
    requires head == [KindByte(f.kind), f.flags] && size == Le32(|f.payload|)
    requires crc == Le32(c.crc32(head + size + f.payload))
    ensures AllFit(frames + [f])
    ensures before + head + size + f.payload + crc == Stream(c, frames + [f])
    ensures |Stream(c, frames + [f])| == |before| + 10 + |f.payload|
  {
    PrintAllStep(c, frames, f);
    FramePrinted(c, f, head, size, crc);
    StreamStarts(c, frames, f);
    hide Print, PrintAll, Stream, Le32, KindByte;
    Regroup(before, head, size);
    Regroup(before, head + size, f.payload);
    Regroup(before, head + size + f.payload, crc);
    Regroup(MAGIC, PrintAll(c, frames), Print(c, f));
  }

  lemma FramePrinted(c: StreamCodec, f: Frame, head: bytes, size: bytes, crc: bytes)
    requires Fits(f) && head == [KindByte(f.kind), f.flags] && size == Le32(|f.payload|)
    requires crc == Le32(c.crc32(head + size + f.payload))
    ensures Print(c, f) == head + size + f.payload + crc
    ensures |head| == 2 && |size| == 4 && |crc| == 4
  {
    hide KindByte;
    assert head + size == Head(KindByte(f.kind), f.flags, |f.payload|);
  }

  lemma StreamStarts(c: StreamCodec, frames: seq<Frame>, f: Frame)
    requires AllFit(frames + [f])
    ensures Stream(c, frames + [f]) == MAGIC + PrintAll(c, frames + [f])
  {
    hide PrintAll;
  }

  lemma Misfit(c: StreamCodec, records: seq<Record>, n: nat)
    requires n < |records| && !Fits(FrameOf(c, records[n]))
    ensures !AllFit(FramesOf(c, records))
  {
    assert FramesOf(c, records)[n] == FrameOf(c, records[n]);
  }

  lemma AllFitting(encoder: Encoder)
    requires encoder.Valid()
    ensures AllFit(encoder.frames)
  {
  }

  // Writing a list of records and finishing: the bytes of a whole backup.
  method EncodeAll(c: StreamCodec, records: seq<Record>) returns (r: Result<bytes, Error>)
    ensures r.Success? <==> AllFit(FramesOf(c, records)) && Fits(FrameOf(c, TrailerFor(c, FramesOf(c, records))))
    ensures r.Success? ==>
              r.value == MAGIC + PrintAll(c, FramesOf(c, records) + [FrameOf(c, TrailerFor(c, FramesOf(c, records)))])
  {
    hide FrameOf, Print, PrintAll, FramesOf, Fits;
    var encoder := new Encoder(c);
    for n := 0 to |records|
      invariant fresh(encoder) && encoder.Valid() && encoder.c == c
      invariant encoder.frames == FramesOf(c, records)[..n]
    {
      var written := encoder.WriteRecord(records[n]);
      if written.Failure? {
        Misfit(c, records, n);
        return Failure(written.error);
      }
    }
    assert FramesOf(c, records)[..|records|] == FramesOf(c, records);
    AllFitting(encoder);
    var finished := encoder.Finish();
    if finished.Failure? {
      return Failure(finished.error);
    }
    return Success(encoder.writer);
  }
}
