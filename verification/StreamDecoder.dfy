// The decoder: a reader that may deliver its bytes in any pieces, and the
// state machine of read_next_record over it.
module StreamDecoder {
  import opened Wrappers
  import opened Codecs
  import opened StreamFormat

  // An AsyncRead over some bytes. `pieces` is how they happen to arrive; a
  // read returns at most one piece, and nothing only at the end.
  class Reader {
    var pieces: seq<bytes>

    ghost predicate Valid()
      reads this
    {
      forall i :: 0 <= i < |pieces| ==> pieces[i] != []
    }

    function Rest(): bytes
      reads this
    {
      Flatten(pieces)
    }

    constructor (pieces: seq<bytes>)
      requires forall i :: 0 <= i < |pieces| ==> pieces[i] != []
      ensures Valid() && Rest() == Flatten(pieces)
    {
      this.pieces := pieces;
    }

    // One read into a buffer of `room` bytes.
    method Read(room: nat) returns (got: bytes)
      requires Valid() && room > 0
      modifies this
      ensures Valid()
      ensures got + Rest() == old(Rest()) && |got| <= room
      ensures got == [] <==> old(Rest()) == []
    {
      if pieces == [] {
        return [];
      }
      var first := pieces[0];
      if |first| <= room {
        got := first;
        pieces := pieces[1..];
      } else {
        got := first[..room];
        pieces := [first[room..]] + pieces[1..];
        assert pieces[1..] == old(pieces)[1..];
        assert first[..room] + (first[room..] + Flatten(old(pieces)[1..])) == first + Flatten(old(pieces)[1..]);
      }
    }

    // read_exact: fill the buffer, or consume all there is and fail.
    method ReadExact(size: nat) returns (r: Option<bytes>)
      requires Valid()
      modifies this
      ensures Valid()
      ensures if size <= |old(Rest())| then r == Some(old(Rest())[..size]) && Rest() == old(Rest())[size..]
              else r == None && Rest() == []
    {
      var filled: bytes := [];
      while |filled| < size
        invariant Valid() && |filled| <= size
        invariant filled + Rest() == old(Rest())
        decreases size - |filled|
      {
        var got := Read(size - |filled|);
        if got == [] {
          return None;
        }
        filled := filled + got;
      }
      assert old(Rest())[..size] == filled && old(Rest())[size..] == Rest();
      return Some(filled);
    }
  }

  // ------------------------------------------------------- the specification

  datatype State = State(
    rest: bytes,             // not yet read
    magicChecked: bool,
    recordsRead: nat,
    bytesRead: nat,
    reachedEof: bool,
    trailerVerified: bool,
    hashed: bytes)           // fed to the running SHA-256

  function Initial(input: bytes): State {
    State(input, false, 0, 0, false, false, [])
  }

  function CheckMagic(s: State): (State, bool) {
    if s.magicChecked then (s, true)
    else if |s.rest| < 4 then (s.(rest := []), false)
    else if s.rest[..4] != MAGIC then (s.(rest := s.rest[4..]), false)
    else (s.(rest := s.rest[4..], hashed := s.hashed + MAGIC, bytesRead := s.bytesRead + 4, magicChecked := true), true)
  }

  // A record takes at least its ten framing bytes off the input.
  function Next(c: StreamCodec, s: State): (out: (State, Result<Option<Record>, Error>))
    ensures out.1.Success? && out.1.value.Some? ==> |out.0.rest| <= |s.rest| - 10
  {
    if s.reachedEof then (s, Success(None))
    else
      var (m, ok) := CheckMagic(s);
      if !ok then (m, Failure(Format)) else NextFrame(c, m)
  }

  function NextFrame(c: StreamCodec, s: State): (out: (State, Result<Option<Record>, Error>))
    ensures out.1.Success? && out.1.value.Some? ==> |out.0.rest| <= |s.rest| - 10
  {
    if |s.rest| < 6 then
      if s.trailerVerified then (s.(rest := [], reachedEof := true), Success(None))
      else (s.(rest := []), Failure(Integrity))
    else
      var head := s.rest[..6];
      var size := FromLe32(head[2..]);
      var body := s.(rest := s.rest[6..]);
      if size > MAX_PAYLOAD then (body, Failure(Integrity))
      else if |body.rest| < size then (body.(rest := []), Failure(Integrity))
      else
        var payload := body.rest[..size];
        var tail := s.(rest := body.rest[size..]);
        if |tail.rest| < 4 then (tail.(rest := []), Failure(Integrity))
        else
          var crc := tail.rest[..4];
          Checked(c, s.(rest := tail.rest[4..]), head, payload, crc)
  }

  // A frame has been read in full.
  function Checked(c: StreamCodec, s: State, head: bytes, payload: bytes,
                   crc: bytes): (out: (State, Result<Option<Record>, Error>))
    requires |head| == 6 && |crc| == 4
    ensures out.0.rest == s.rest
  {
    if c.crc32(head + payload) != FromLe32(crc) then (s, Failure(Integrity))
    else
      var counted := s.(recordsRead := s.recordsRead + 1, bytesRead := s.bytesRead + 6 + |payload| + 4);
      match KindOfByte(head[0])
      case None => (counted, Failure(Format))
      case Some(kind) => Parsed(c, counted, kind, head, payload, crc)
  }

  function Parsed(c: StreamCodec, s: State, kind: Kind, head: bytes, payload: bytes,
                  crc: bytes): (out: (State, Result<Option<Record>, Error>))
    ensures out.0.rest == s.rest
  {
    var fed := s.(hashed := s.hashed + head + payload + crc);
    match c.parse(kind, payload)
    case None => (fed, Failure(Format))
    case Some(record) =>
      if record.TrailerRecord? then
        if c.sha256(s.hashed) != record.trailer.streamHash then (fed, Failure(Integrity))
        else if record.trailer.totalRecords != s.recordsRead - 1 then (fed, Failure(Integrity))
        else (fed.(trailerVerified := true, reachedEof := true), Success(Some(record)))
      else (fed, Success(Some(record)))
  }

  // ------------------------------------------------------------- the object

  class Decoder {
    const c: StreamCodec
    const reader: Reader
    var magicChecked: bool
    var recordsRead: nat
    var bytesRead: nat
    var reachedEof: bool
    var trailerVerified: bool
    var hashed: bytes

    function View(): State
      reads this, reader
    {
      State(reader.Rest(), magicChecked, recordsRead, bytesRead, reachedEof, trailerVerified, hashed)
    }

    constructor (c: StreamCodec, reader: Reader)
      ensures this.c == c && this.reader == reader && View() == Initial(reader.Rest())
    {
      this.c := c;
      this.reader := reader;
      magicChecked, recordsRead, bytesRead, reachedEof, trailerVerified, hashed := false, 0, 0, false, false, [];
    }

    method TestMagic() returns (ok: bool)
      requires reader.Valid()
      modifies this, reader
      ensures reader.Valid()
      ensures (View(), ok) == CheckMagic(old(View()))
    {
      if !magicChecked {
        var magic := reader.ReadExact(4);
        if magic.None? {
          return false;
        }
        if magic.value != MAGIC {
          return false;
        }
        hashed := hashed + MAGIC;
        bytesRead := bytesRead + 4;
        magicChecked := true;
      }
      return true;
    }

    method ReadNextRecord() returns (r: Result<Option<Record>, Error>)
      requires reader.Valid() && c.Lawful()
      modifies this, reader
      ensures reader.Valid()
      ensures (View(), r) == Next(c, old(View()))
    {
      if reachedEof {
        return Success(None);
      }
      var ok := TestMagic();
      if !ok {
        return Failure(Format);
      }
      r := ReadFrame();
    }

    method ReadFrame() returns (r: Result<Option<Record>, Error>)
      requires reader.Valid() && c.Lawful()
      modifies this, reader
      ensures reader.Valid()
      ensures (View(), r) == NextFrame(c, old(View()))
    {
      var header := reader.ReadExact(6);
      if header.None? {
        if trailerVerified {
          reachedEof := true;
          return Success(None);
        } else {
          return Failure(Integrity);
        }
      }
      var head := header.value;
      var size := FromLe32(head[2..]);
      if size > MAX_PAYLOAD {
        return Failure(Integrity);
      }
      var body := reader.ReadExact(size);
      if body.None? {
        return Failure(Integrity);
      }
      var check := reader.ReadExact(4);
      if check.None? {
        return Failure(Integrity);
      }
      r := Accept(head, body.value, check.value);
    }

    method Accept(head: bytes, payload: bytes, crc: bytes) returns (r: Result<Option<Record>, Error>)
      requires |head| == 6 && |crc| == 4 && c.Lawful()
      modifies this
      ensures reader.pieces == old(reader.pieces)
      ensures (View(), r) == Checked(c, old(View()), head, payload, crc)
    {
      if c.crc32(head + payload) != FromLe32(crc) {
        return Failure(Integrity);
      }
      recordsRead := recordsRead + 1;
      bytesRead := bytesRead + 6 + |payload| + 4;
      var kind := KindOfByte(head[0]);
      if kind.None? {
        return Failure(Format);
      }
      var preTrailerHash := if kind.value == Trailer then Some(c.sha256(hashed)) else None;
      hashed := hashed + head + payload + crc;
      var parsed := c.parse(kind.value, payload);
      if parsed.None? {
        return Failure(Format);
      }
      var record := parsed.value;
      if record.TrailerRecord? {
        var trailer := record.trailer;
        if preTrailerHash.value != trailer.streamHash {
          return Failure(Integrity);
        }
        if trailer.totalRecords != recordsRead - 1 {
          return Failure(Integrity);
        }
        trailerVerified := true;
        reachedEof := true;
      }
      return Success(Some(record));
    }
  }

  // ------------------------------------------------------- reading to the end

  // What `while let Some(record) = read_next_record()?` sees.
  function ReadAll(c: StreamCodec, s: State): (seq<Record>, Result<State, Error>)
    decreases |s.rest|, if s.reachedEof then 0 else 1
  {
    match Next(c, s)
    case (_, Failure(e)) => ([], Failure(e))
    case (after, Success(None)) => ([], Success(after))
    case (after, Success(Some(record))) =>
      var (records, end) := ReadAll(c, after);
      ([record] + records, end)
  }

  lemma ReadAllStep(c: StreamCodec, s: State, next: Result<Option<Record>, Error>)
    requires next == Next(c, s).1
    ensures match next
            case Failure(e) => ReadAll(c, s) == ([], Failure(e))
            case Success(None) => ReadAll(c, s) == ([], Success(Next(c, s).0))
            case Success(Some(record)) =>
              var after := Next(c, s).0;
              ReadAll(c, s) == ([record] + ReadAll(c, after).0, ReadAll(c, after).1)
  {
  }

  // What is left to do, as a state; None once the end was reached.
  ghost predicate Pending(c: StreamCodec, whole: (seq<Record>, Result<State, Error>), records: seq<Record>, s: State,
                          more: bool) {
    if more then whole == (records + ReadAll(c, s).0, ReadAll(c, s).1) else whole == (records, Success(s))
  }

  lemma PendingStep(c: StreamCodec, whole: (seq<Record>, Result<State, Error>), records: seq<Record>, s: State,
                    after: State, next: Result<Option<Record>, Error>)
    requires Pending(c, whole, records, s, true) && (after, next) == Next(c, s)
    ensures match next
            case Failure(e) => whole == (records, Failure(e))
            case Success(None) => Pending(c, whole, records, after, false)
            case Success(Some(record)) => Pending(c, whole, records + [record], after, true) && |after.rest| < |s.rest|
  {
    ReadAllStep(c, s, next);
    assert records + [] == records;
    if next.Success? && next.value.Some? {
      var rest := ReadAll(c, after).0;
      assert records + ([next.value.value] + rest) == records + [next.value.value] + rest;
    }
  }

  method Drain(decoder: Decoder) returns (records: seq<Record>, end: Result<(), Error>)
    requires decoder.reader.Valid() && decoder.c.Lawful()
    modifies decoder, decoder.reader
    ensures var (all, result) := ReadAll(decoder.c, old(decoder.View()));
            && records == all && end.Success? == result.Success?
            && (result.Success? ==> decoder.View() == result.value)
  {
    records := [];
    ghost var whole := ReadAll(decoder.c, decoder.View());
    assert [] + whole.0 == whole.0;
    var more := true;
    while more
      invariant decoder.reader.Valid()
      invariant Pending(decoder.c, whole, records, decoder.View(), more)
      decreases more, |decoder.reader.Rest()|
    {
      ghost var before := decoder.View();
      var next := decoder.ReadNextRecord();
      PendingStep(decoder.c, whole, records, before, decoder.View(), next);
      if next.Failure? {
        return records, Failure(next.error);
      } else if next.value.None? {
        more := false;
      } else {
        records := records + [next.value.value];
      }
    }
    return records, Success(());
  }
}
