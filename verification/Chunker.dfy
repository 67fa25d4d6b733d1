// Cutting a byte stream into fixed-size chunks: the StreamChunker and the
// backup command's own read loop.
module Chunker {
  import opened Wrappers
  import opened Codecs

  // The fixed-size split.
  function Split<T>(stream: seq<T>, size: nat): seq<seq<T>>
    requires size > 0
  {
    if stream == [] then []
    else if |stream| <= size then [stream]
    else [stream[..size]] + Split(stream[size..], size)
  }

  // Every chunk is full except possibly the last, and none is empty.
  predicate FixedSize<T>(chunks: seq<seq<T>>, size: nat) {
    && (forall i :: 0 <= i < |chunks| ==> 0 < |chunks[i]| <= size)
    && (forall i :: 0 <= i < |chunks| - 1 ==> |chunks[i]| == size)
  }

  // Splitting loses nothing and has the shape; and it is the only list of
  // chunks that does, so chunk boundaries depend on the bytes alone.
  lemma {:induction false} SplitShape<T>(stream: seq<T>, size: nat)
    requires size > 0
    ensures Flatten(Split(stream, size)) == stream && FixedSize(Split(stream, size), size)
    decreases |stream|
  {
    if stream == [] {
    } else if |stream| <= size {
      assert Flatten([stream]) == stream + Flatten([]);
    } else {
      SplitShape(stream[size..], size);
      assert Split(stream, size)[1..] == Split(stream[size..], size);
      assert stream == stream[..size] + stream[size..];
    }
  }

  lemma {:induction false} SplitUnique<T>(chunks: seq<seq<T>>, size: nat)
    requires size > 0 && FixedSize(chunks, size)
    ensures chunks == Split(Flatten(chunks), size)
  {
    if chunks == [] {
    } else {
      var stream := Flatten(chunks);
      SplitUnique(chunks[1..], size);
      if |chunks| == 1 {
        assert chunks == [chunks[0]] && stream == chunks[0];
      } else {
        assert Flatten(chunks[1..]) == chunks[1] + Flatten(chunks[2..]) by { assert chunks[1..][1..] == chunks[2..]; }
        assert |chunks[0]| == size && |stream| > size;
        assert stream[..size] == chunks[0] && stream[size..] == Flatten(chunks[1..]);
        assert chunks == [chunks[0]] + chunks[1..];
      }
    }
  }

  predicate AllFull<T>(chunks: seq<seq<T>>, size: nat) {
    forall i :: 0 <= i < |chunks| ==> |chunks[i]| == size
  }

  // Full chunks followed by a rest shorter than a chunk are the split.
  lemma FullThenRest<T>(chunks: seq<seq<T>>, rest: seq<T>, size: nat)
    requires size > 0 && AllFull(chunks, size) && |rest| <= size
    ensures Split(Flatten(chunks) + rest, size) == if rest == [] then chunks else chunks + [rest]
  {
    if rest == [] {
      assert Flatten(chunks) + rest == Flatten(chunks);
      SplitUnique(chunks, size);
    } else {
      FlattenSnoc(chunks, rest);
      SplitUnique(chunks + [rest], size);
    }
  }

  // `fails` says which calls of the handler fail; the chunk then stays in the
  // buffer and is handed over again by the next write.
  class StreamChunker {
    const sha256: bytes -> string
    const chunkSize: nat
    const fails: nat -> bool
    var buffer: bytes
    var handled: seq<bytes>     // chunks the handler has taken
    var hashes: seq<string>
    var calls: nat              // how often it was called
    var totalBytes: nat
    var chunksCount: nat
    ghost var written: bytes    // all bytes consumed

    ghost predicate Valid()
      reads this
    {
      && chunkSize > 0 && |buffer| <= chunkSize
      && AllFull(handled, chunkSize)
      && written == Flatten(handled) + buffer
      && Accounted()
    }

    ghost predicate Accounted()
      reads this
    {
      && totalBytes == |written| && chunksCount == |handled| == |hashes|
      && forall i :: 0 <= i < |handled| ==> hashes[i] == sha256(handled[i])
    }

    constructor (chunkSize: nat, sha256: bytes -> string, fails: nat -> bool)
      requires chunkSize > 0
      ensures Valid() && written == [] && calls == 0
      ensures this.chunkSize == chunkSize && this.sha256 == sha256 && this.fails == fails
    {
      this.chunkSize := chunkSize;
      this.sha256 := sha256;
      this.fails := fails;
      buffer, handled, hashes, calls, totalBytes, chunksCount, written := [], [], [], 0, 0, 0, [];
    }

    method FlushChunk() returns (ok: bool)
      requires Accounted()
      modifies this`buffer, this`handled, this`hashes, this`chunksCount, this`calls
      ensures Accounted()
      ensures calls == if old(buffer) == [] then old(calls) else old(calls) + 1
      ensures ok <==> old(buffer) == [] || !fails(old(calls))
      ensures buffer == if ok then [] else old(buffer)
      ensures handled == if ok && old(buffer) != [] then old(handled) + [old(buffer)] else old(handled)
    {
      if buffer == [] {
        return true;
      }
      calls := calls + 1;
      if fails(calls - 1) {
        return false;
      }
      handled := handled + [buffer];
      hashes := hashes + [sha256(buffer)];
      chunksCount := chunksCount + 1;
      buffer := [];
      return true;
    }

    // Consumes all of `buf`, or stops with an error where the handler fails,
    // with that chunk still in the buffer.
    method Write(buf: bytes) returns (r: Option<nat>, ghost consumed: nat)
      requires Valid()
      modifies this
      ensures Valid() && consumed <= |buf| && written == old(written) + buf[..consumed]
      ensures old(handled) <= handled
      ensures r.Some? ==> r.value == consumed == |buf| && forall k :: old(calls) <= k < calls ==> !fails(k)
      ensures r.None? ==> |buffer| == chunkSize && old(calls) < calls && fails(calls - 1)
    {
      var count := 0;
      while count < |buf|
        invariant Valid() && count <= |buf| && written == old(written) + buf[..count]
        invariant old(handled) <= handled && old(calls) <= calls
        invariant forall k :: old(calls) <= k < calls ==> !fails(k)
        decreases |buf| - count, |buffer|
      {
        var space := chunkSize - |buffer|;
        var take := if |buf| - count < space then |buf| - count else space;
        Extend(buf, count, take);
        count := count + take;
        assert written == old(written) + buf[..count];
        if |buffer| >= chunkSize {
          FlattenSnoc(handled, buffer);
          var ok := FlushChunk();
          if !ok {
            return None, count;
          }
        }
      }
      return Some(count), count;
    }

    // The next `take` bytes go into the buffer.
    method Extend(buf: bytes, count: nat, take: nat)
      requires Valid() && count + take <= |buf| && |buffer| + take <= chunkSize
      modifies this`buffer, this`written, this`totalBytes
      ensures Valid() && buffer == old(buffer) + buf[count..count + take]
      ensures forall before :: old(written) == before + buf[..count] ==> written == before + buf[..count + take]
    {
      var piece := buf[count..count + take];
      assert buf[..count + take] == buf[..count] + piece;
      buffer := buffer + piece;
      written := written + piece;
      totalBytes := totalBytes + take;
    }

    // What the handler has taken when the chunker is done is the split of
    // everything consumed, however it was written and however often a call
    // failed; if the last call fails, all but the last chunk.
    method Finish() returns (r: Option<(nat, nat)>)
      requires Valid()
      modifies this
      ensures r.Some? ==> handled == Split(old(written), chunkSize)
      ensures r.None? ==>
                old(buffer) != [] && fails(old(calls)) && handled + [old(buffer)] == Split(old(written), chunkSize)
      ensures |hashes| == |handled| && forall i :: 0 <= i < |handled| ==> hashes[i] == sha256(handled[i])
      ensures r.Some? ==> r.value == (|old(written)|, |handled|)
    {
      FullThenRest(handled, buffer, chunkSize);
      var ok := FlushChunk();
      if !ok {
        return None;
      }
      return Some((totalBytes, chunksCount));
    }
  }
}
