// Bytes, errors and the outside functions the repository is built on. SHA-256,
// the AEAD cipher, zstd and JSON enter as functions; `Lawful` says all that is
// assumed about them.
module Codecs {
  import opened Wrappers

  newtype byte = x: int | 0 <= x < 256
  type bytes = seq<byte>

  datatype Error = Integrity | Format | Missing | Collision

  datatype BlobRef = BlobRef(hash: string, rawSize: nat, storedSize: nat, compressionTag: byte)

  datatype Snapshot = Snapshot(
    id: string,
    engine: string,
    database: string,
    tag: Option<string>,
    startedAt: int,
    logicalBytes: nat,
    storedBytes: nat,
    deduplicatedBytes: nat,
    blobs: seq<BlobRef>)

  datatype Level = NoCompression | Fast | Default | Max

  datatype StoreCodec = StoreCodec(
    sha256: bytes -> string,             // hex digest
    seal: (nat, bytes) -> bytes,         // encrypt_blob under the master key, given the random nonce
    unseal: bytes -> Option<bytes>,      // decrypt_blob
    deflate: (int, bytes) -> bytes,      // zstd at a level
    inflate: bytes -> Option<bytes>,
    printSnapshot: Snapshot -> bytes,    // JSON
    parseSnapshot: bytes -> Option<Snapshot>)
  {
    ghost predicate Lawful() {
      && (forall nonce, plain :: unseal(seal(nonce, plain)) == Some(plain))
      && (forall nonce, plain :: seal(nonce, plain) != [])
      && (forall level, raw :: inflate(deflate(level, raw)) == Some(raw))
      && (forall snapshot :: parseSnapshot(printSnapshot(snapshot)) == Some(snapshot))
      && (forall raw :: SlashFree(sha256(raw)) && sha256(raw) != [])
    }

    // No two byte strings in use share a digest.
    ghost predicate CollisionFree() {
      forall a, b :: sha256(a) == sha256(b) ==> a == b
    }
  }

  predicate SlashFree(s: string) {
    forall i :: 0 <= i < |s| ==> s[i] != '/' && s[i] != '\\'
  }

  function Flatten<T>(pieces: seq<seq<T>>): seq<T> {
    if pieces == [] then [] else pieces[0] + Flatten(pieces[1..])
  }

  lemma Regroup<T>(a: seq<T>, b: seq<T>, c: seq<T>)
    ensures a + (b + c) == a + b + c
  {
  }

  lemma {:induction false} FlattenAppend<T>(a: seq<seq<T>>, b: seq<seq<T>>)
    ensures Flatten(a + b) == Flatten(a) + Flatten(b)
  {
    if a == [] {
      assert a + b == b;
    } else {
      FlattenAppend(a[1..], b);
      assert (a + b)[1..] == a[1..] + b && (a + b)[0] == a[0];
      Regroup(a[0], Flatten(a[1..]), Flatten(b));
    }
  }

  lemma FlattenSnoc<T>(pieces: seq<seq<T>>, last: seq<T>)
    ensures Flatten(pieces + [last]) == Flatten(pieces) + last
  {
    FlattenAppend(pieces, [last]);
    assert Flatten([last]) == last + Flatten([]);
  }
}
