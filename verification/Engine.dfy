// The content-addressed store: chunks in, chunks out, snapshots, garbage
// collection and the consistency check, over one map from paths to objects.
module Engine {
  import opened Wrappers
  import opened Codecs
  import opened Compression
  import opened Paths

  type Store = map<string, bytes>

  // ------------------------------------------------------------ reading back

  // get_chunk on a stored payload: the current format keeps the compression
  // tag inside the sealed envelope, the legacy one in front of it.
  function Open(c: StoreCodec, payload: bytes): Result<bytes, Error> {
    if payload == [] then Failure(Integrity)
    else
      match c.unseal(payload)
      case Some(plain) =>
        if plain == [] then Failure(Integrity)
        else Decompress(c, plain[0], plain[1..], MAX_DECOMPRESSED)
      case None =>
        match c.unseal(payload[1..])
        case Some(packed) => Decompress(c, payload[0], packed, MAX_DECOMPRESSED)
        case None => Failure(Integrity)
  }

  function OpenAs(c: StoreCodec, payload: bytes, hash: string): Result<bytes, Error> {
    match Open(c, payload)
    case Failure(e) => Failure(e)
    case Success(raw) => if c.sha256(raw) == hash then Success(raw) else Failure(Integrity)
  }

  function GetChunk(c: StoreCodec, store: Store, hash: string): Result<bytes, Error> {
    if BlobPath(hash) in store then OpenAs(c, store[BlobPath(hash)], hash) else Failure(Missing)
  }

  // Sealed metadata, or legacy plaintext JSON.
  function DecodeSnapshot(c: StoreCodec, data: bytes): Result<Snapshot, Error> {
    match c.unseal(data)
    case Some(plain) =>
      (match c.parseSnapshot(plain)
       case Some(s) => Success(s)
       case None => Failure(Format))
    case None =>
      match c.parseSnapshot(data)
      case Some(s) => Success(s)
      case None => Failure(Integrity)
  }

  // --------------------------------------------------------- what is stored

  function Seal(c: StoreCodec, raw: bytes, level: Level, nonce: nat): bytes {
    var (tag, packed) := Compress(c, level, raw);
    c.seal(nonce, [tag] + packed)
  }

  // Every blob in the store opens to bytes with the digest its name says.
  ghost predicate WellFormed(c: StoreCodec, store: Store) {
    forall h :: SlashFree(h) && BlobPath(h) in store ==> GetChunk(c, store, h).Success?
  }

  // Sealing at any level and nonce, then opening, gives the chunk back exactly
  // when it is within the decompression limit.
  lemma SealedOpens(c: StoreCodec, raw: bytes, level: Level, nonce: nat)
    requires c.Lawful()
    ensures OpenAs(c, Seal(c, raw, level, nonce), c.sha256(raw))
            == (if |raw| <= 32 * 1024 * 1024 then Success(raw) else Failure(Integrity))
  {
  }

  // A payload of the older format, its tag in front of the sealed data, opens
  // where it is not taken for the newer one.
  lemma LegacyOpens(c: StoreCodec, raw: bytes, level: Level, nonce: nat)
    requires c.Lawful() && |raw| <= 32 * 1024 * 1024
    ensures var (tag, packed) := Compress(c, level, raw);
            var payload := [tag] + c.seal(nonce, packed);
            c.unseal(payload) == None ==> OpenAs(c, payload, c.sha256(raw)) == Success(raw)
  {
    var (tag, packed) := Compress(c, level, raw);
    var payload := [tag] + c.seal(nonce, packed);
    assert payload[0] == tag && payload[1..] == c.seal(nonce, packed);
    CompressInverse(c, level, raw, MAX_DECOMPRESSED);
  }

  // ------------------------------------------------------------- references

  predicate SnapshotKey(store: Store, k: string) {
    k in store && Under("snapshots", k)
  }

  predicate BlobKey(store: Store, k: string) {
    k in store && Under("blobs", k)
  }

  predicate AllReadable(c: StoreCodec, store: Store) {
    forall k :: k in store && SnapshotKey(store, k) ==> DecodeSnapshot(c, store[k]).Success?
  }

  predicate References(s: Snapshot, hash: string) {
    exists i :: 0 <= i < |s.blobs| && s.blobs[i].hash == hash
  }

  ghost predicate Referenced(c: StoreCodec, store: Store, hash: string) {
    exists k :: k in store && SnapshotKey(store, k)
                && DecodeSnapshot(c, store[k]).Success? && References(DecodeSnapshot(c, store[k]).value, hash)
  }

  // Blob objects whose file name no snapshot mentions.
  ghost function Orphans(c: StoreCodec, store: Store): set<string> {
    set k | k in store && BlobKey(store, k) && !Referenced(c, store, LastComponent(k))
  }

  // A listed object below blobs/ whose last name is no hash of a listed snapshot.
  ghost predicate Unused(c: StoreCodec, listed: Store, k: string) {
    && k in listed && "blobs/" <= k
    && forall j, s :: j in listed && "snapshots/" <= j && DecodeSnapshot(c, listed[j]) == Success(s) ==>
         forall n :: 0 <= n < |s.blobs| ==> s.blobs[n].hash != LastComponent(k)
  }

  lemma OrphansUnused(c: StoreCodec, listed: Store)
    ensures forall k :: k in Orphans(c, listed) <==> Unused(c, listed, k)
  {
    hide LastComponent, DecodeSnapshot;
    assert "blobs" + "/" == "blobs/" && "snapshots" + "/" == "snapshots/";
    forall k | k in listed && "blobs/" <= k ensures !Referenced(c, listed, LastComponent(k)) <==> Unused(c, listed, k) {
      if j :| j in listed && SnapshotKey(listed, j) && DecodeSnapshot(c, listed[j]).Success?
              && References(DecodeSnapshot(c, listed[j]).value, LastComponent(k))
      {
        assert DecodeSnapshot(c, listed[j]) == Success(DecodeSnapshot(c, listed[j]).value);
      }
      if !Unused(c, listed, k) {
        var j, s :| j in listed && "snapshots/" <= j && DecodeSnapshot(c, listed[j]) == Success(s)
                    && exists n :: 0 <= n < |s.blobs| && s.blobs[n].hash == LastComponent(k);
        assert SnapshotKey(listed, j) && References(s, LastComponent(k));
      }
    }
  }

  ghost function Unmentioned(keys: seq<string>, hashes: set<string>): set<string> {
    set k | k in keys && LastComponent(k) !in hashes
  }

  lemma UnmentionedStep(keys: seq<string>, n: nat, hashes: set<string>)
    requires n < |keys| && forall i, j :: 0 <= i < j < |keys| ==> keys[i] != keys[j]
    ensures keys[n] !in Unmentioned(keys[..n], hashes)
    ensures Unmentioned(keys[..n + 1], hashes)
            == Unmentioned(keys[..n], hashes) + (if LastComponent(keys[n]) in hashes then {} else {keys[n]})
  {
  }

  ghost function Sum(m: map<string, nat>): nat {
    if m == map[] then 0
    else var k :| k in m.Keys; m[k] + Sum(m - {k})
  }

  // The total does not depend on the order of addition.
  lemma {:induction false} SumSplit(m: map<string, nat>, k: string)
    requires k in m
    ensures Sum(m) == m[k] + Sum(m - {k})
    decreases |m|
  {
    var first :| first in m.Keys && Sum(m) == m[first] + Sum(m - {first});
    if first != k {
      assert (m - {first}).Keys == m.Keys - {first} && (m - {k}).Keys == m.Keys - {k};
      SumSplit(m - {first}, k);
      SumSplit(m - {k}, first);
      assert m - {first} - {k} == m - {k} - {first};
    }
  }

  ghost function Sizes(store: Store): map<string, nat> {
    map k | k in store :: |store[k]|
  }

  lemma SizesWithout(store: Store, k: string)
    requires k in store
    ensures Sum(Sizes(store)) == |store[k]| + Sum(Sizes(store - {k}))
  {
    SumSplit(Sizes(store), k);
    assert Sizes(store - {k}) == Sizes(store) - {k};
  }

  // How many references of a snapshot point at no object.
  function MissingIn(store: Store, blobs: seq<BlobRef>): nat {
    if blobs == [] then 0
    else MissingIn(store, blobs[..|blobs| - 1]) + (if BlobPath(blobs[|blobs| - 1].hash) in store then 0 else 1)
  }

  predicate Dangles(store: Store, blobs: seq<BlobRef>, n: int) {
    0 <= n < |blobs| && BlobPath(blobs[n].hash) !in store
  }

  lemma DanglesBefore(store: Store, blobs: seq<BlobRef>)
    requires blobs != []
    ensures forall n :: 0 <= n < |blobs| - 1 ==> (Dangles(store, blobs[..|blobs| - 1], n) <==> Dangles(store, blobs, n))
  {
    hide BlobPath;
  }

  // Each reference counts once, if its object is not there.
  lemma {:induction false} MissingCounts(store: Store, blobs: seq<BlobRef>)
    ensures MissingIn(store, blobs) == |set n | 0 <= n < |blobs| && Dangles(store, blobs, n)|
  {
    var missing := set n | 0 <= n < |blobs| && Dangles(store, blobs, n);
    if blobs == [] {
      assert missing == {};
    } else {
      var m, front := |blobs| - 1, blobs[..|blobs| - 1];
      MissingCounts(store, front);
      assert Dangles(store, blobs, m) <==> BlobPath(blobs[m].hash) !in store;
      DanglesBefore(store, blobs);
      hide MissingIn, Dangles;
      var before := set n | 0 <= n < |front| && Dangles(store, front, n);
      assert m !in before;
      assert missing == before + if Dangles(store, blobs, m) then {m} else {};
    }
  }

  // By snapshot that is listed, against the objects that are there.
  ghost function MissingBy(c: StoreCodec, listed: Store, store: Store): map<string, nat> {
    map k | k in listed && SnapshotKey(listed, k) && DecodeSnapshot(c, listed[k]).Success?
      :: MissingIn(store, DecodeSnapshot(c, listed[k]).value.blobs)
  }

  // ---------------------------------------------------------------- listings

  // A local listing passes over directories whose entries cannot be read.
  predicate Unlisted(unreadable: set<string>, k: string) {
    exists dir :: dir in unreadable && Under(dir, k)
  }

  // The part of the store that listings show.
  function Listed(store: Store, unreadable: set<string>): Store {
    map k | k in store && !Unlisted(unreadable, k) :: store[k]
  }

  // sort_by_key(Reverse(started_at)): stable, newest first.
  function NewestFirst(list: seq<(string, Snapshot)>): (sorted: seq<(string, Snapshot)>)
    ensures multiset(sorted) == multiset(list)
  {
    if list == [] then []
    else
      assert list == [list[0]] + list[1..];
      InsertNewest(list[0], NewestFirst(list[1..]))
  }

  function InsertNewest(x: (string, Snapshot), sorted: seq<(string, Snapshot)>): (out: seq<(string, Snapshot)>)
    ensures multiset(out) == multiset(sorted) + multiset{x}
  {
    if sorted == [] || sorted[0].1.startedAt <= x.1.startedAt then [x] + sorted
    else
      assert sorted == [sorted[0]] + sorted[1..];
      [sorted[0]] + InsertNewest(x, sorted[1..])
  }

  predicate Descending(list: seq<(string, Snapshot)>) {
    forall i, j :: 0 <= i < j < |list| ==> list[i].1.startedAt >= list[j].1.startedAt
  }

  predicate DistinctKeys(list: seq<(string, Snapshot)>) {
    forall i, j :: 0 <= i < j < |list| ==> list[i].0 != list[j].0
  }

  lemma SameEntries(a: seq<(string, Snapshot)>, b: seq<(string, Snapshot)>)
    requires multiset(a) == multiset(b)
    ensures |a| == |b| && forall x :: x in a <==> x in b
  {
    assert |multiset(a)| == |a| && |multiset(b)| == |b|;
    forall x ensures x in a <==> x in b {
      assert x in a <==> x in multiset(a);
      assert x in b <==> x in multiset(b);
    }
  }

  lemma {:induction false} InsertSorts(x: (string, Snapshot), sorted: seq<(string, Snapshot)>)
    requires Descending(sorted) && DistinctKeys(sorted) && forall i :: 0 <= i < |sorted| ==> sorted[i].0 != x.0
    ensures Descending(InsertNewest(x, sorted)) && DistinctKeys(InsertNewest(x, sorted))
  {
    if sorted == [] || sorted[0].1.startedAt <= x.1.startedAt {
    } else {
      InsertSorts(x, sorted[1..]);
      var rest := InsertNewest(x, sorted[1..]);
      SameEntries(rest, sorted[1..] + [x]);
      forall j | 0 <= j < |rest| ensures rest[j].0 != sorted[0].0 && sorted[0].1.startedAt >= rest[j].1.startedAt {
        assert rest[j] in sorted[1..] + [x];
      }
    }
  }

  lemma {:induction false} NewestFirstSorts(list: seq<(string, Snapshot)>)
    requires DistinctKeys(list)
    ensures Descending(NewestFirst(list)) && DistinctKeys(NewestFirst(list))
  {
    if list == [] {
    } else {
      NewestFirstSorts(list[1..]);
      var rest := NewestFirst(list[1..]);
      SameEntries(rest, list[1..]);
      forall i | 0 <= i < |rest| ensures rest[i].0 != list[0].0 {
        assert rest[i] in list[1..];
      }
      InsertSorts(list[0], rest);
    }
  }

  // The snapshots a store lists, each once, decoded.
  ghost predicate Lists(c: StoreCodec, listed: Store, snapshots: seq<(string, Snapshot)>) {
    && DistinctKeys(snapshots)
    && (forall i :: 0 <= i < |snapshots| ==>
          SnapshotKey(listed, snapshots[i].0) && DecodeSnapshot(c, listed[snapshots[i].0]) == Success(snapshots[i].1))
    && (forall k :: k in listed && SnapshotKey(listed, k) ==> exists i :: 0 <= i < |snapshots| && snapshots[i].0 == k)
  }

  lemma ListsSorted(c: StoreCodec, listed: Store, snapshots: seq<(string, Snapshot)>)
    requires Lists(c, listed, snapshots)
    ensures Lists(c, listed, NewestFirst(snapshots)) && Descending(NewestFirst(snapshots))
  {
    NewestFirstSorts(snapshots);
    SameEntries(NewestFirst(snapshots), snapshots);
    hide NewestFirst, Descending;
    SameLists(c, listed, NewestFirst(snapshots), snapshots);
  }

  lemma SameLists(c: StoreCodec, listed: Store, sorted: seq<(string, Snapshot)>, snapshots: seq<(string, Snapshot)>)
    requires Lists(c, listed, snapshots) && DistinctKeys(sorted) && forall x :: x in sorted <==> x in snapshots
    ensures Lists(c, listed, sorted)
  {
    hide DecodeSnapshot, Under, DistinctKeys;
    forall i | 0 <= i < |sorted|
      ensures SnapshotKey(listed, sorted[i].0) && DecodeSnapshot(c, listed[sorted[i].0]) == Success(sorted[i].1)
    {
      assert sorted[i] in snapshots;
    }
    forall k | k in listed && SnapshotKey(listed, k) ensures exists i :: 0 <= i < |sorted| && sorted[i].0 == k {
      var i :| 0 <= i < |snapshots| && snapshots[i].0 == k;
      assert snapshots[i] in sorted;
    }
  }

  // ------------------------------------------------------------ the object

  // `unreadable` are the directories a listing passes over; none on S3.
  class Repository {
    const c: StoreCodec
    const unreadable: set<string>
    var store: Store

    constructor (c: StoreCodec, store: Store, unreadable: set<string>)
      ensures this.c == c && this.store == store && this.unreadable == unreadable
    {
      this.c := c;
      this.store := store;
      this.unreadable := unreadable;
    }

    function Seen(): Store
      reads this
    {
      Listed(store, unreadable)
    }

    // Store a chunk unless an object of that name is there already.
    method PutChunk(raw: bytes, hash: string, level: Level, nonce: nat) returns (ref: BlobRef, deduplicated: bool)
      modifies this
      ensures deduplicated == (BlobPath(hash) in old(store))
      ensures store == if deduplicated then old(store) else old(store)[BlobPath(hash) := Seal(c, raw, level, nonce)]
      ensures ref.hash == hash && ref.rawSize == |raw|
      ensures ref.storedSize == if deduplicated then 0 else |store[BlobPath(hash)]|
      ensures ref.compressionTag == if deduplicated then 0 else Compress(c, level, raw).0
    {
      if BlobPath(hash) in store {
        return BlobRef(hash, |raw|, 0, 0), true;
      }
      var (tag, packed) := Compress(c, level, raw);
      var sealed := c.seal(nonce, [tag] + packed);
      store := store[BlobPath(hash) := sealed];
      return BlobRef(hash, |raw|, |sealed|, tag), false;
    }

    method CommitSnapshot(snapshot: Snapshot, nonce: nat) returns (r: Result<(), Error>)
      modifies this
      ensures r.Failure? <==> SnapshotPath(snapshot.id) in old(store)
      ensures store == if r.Failure? then old(store)
                       else old(store)[SnapshotPath(snapshot.id) := c.seal(nonce, c.printSnapshot(snapshot))]
    {
      if SnapshotPath(snapshot.id) in store {
        return Failure(Collision);
      }
      store := store[SnapshotPath(snapshot.id) := c.seal(nonce, c.printSnapshot(snapshot))];
      return Success(());
    }

    method DeleteSnapshot(id: string)
      modifies this
      ensures store == old(store) - {SnapshotPath(id)}
    {
      store := store - {SnapshotPath(id)};
    }

    method ListObjects(dir: string) returns (keys: seq<string>)
      ensures forall i, j :: 0 <= i < j < |keys| ==> keys[i] != keys[j]
      ensures forall k :: k in keys <==> k in Seen() && Under(dir, k)
    {
      keys := [];
      var left := set k | k in store && Under(dir, k) && !Unlisted(unreadable, k);
      hide Under, Unlisted;
      while left != {}
        invariant forall k :: k in left ==> k in Seen() && Under(dir, k)
        invariant forall i, j :: 0 <= i < j < |keys| ==> keys[i] != keys[j]
        invariant forall k :: k in keys <==> k in Seen() && Under(dir, k) && k !in left
        decreases |left|
      {
        var k :| k in left;
        keys := keys + [k];
        left := left - {k};
      }
    }

    // The newest first; fails on the first object that cannot be decoded.
    method ListSnapshots() returns (r: Result<seq<(string, Snapshot)>, Error>)
      ensures r.Success? <==> AllReadable(c, Seen())
      ensures r.Success? ==> Lists(c, Seen(), r.value)
      ensures r.Success? ==>
                forall i, j :: 0 <= i < j < |r.value| ==> r.value[i].1.startedAt >= r.value[j].1.startedAt
    {
      hide DecodeSnapshot, Under;
      var keys := ListObjects("snapshots");
      ghost var seen := Seen();
      var found: seq<(string, Snapshot)> := [];
      for n := 0 to |keys|
        invariant |found| == n
        invariant forall i :: 0 <= i < n ==>
                    found[i].0 == keys[i] && keys[i] in seen && DecodeSnapshot(c, seen[keys[i]]) == Success(found[i].1)
      {
        assert keys[n] in keys && keys[n] in seen;
        var decoded := DecodeSnapshot(c, store[keys[n]]);
        if decoded.Failure? {
          return Failure(decoded.error);
        }
        found := found + [(keys[n], decoded.value)];
      }
      FoundAll(c, seen, keys, found);
      ListsSorted(c, seen, found);
      return Success(NewestFirst(found));
    }

    // The hashes any readable snapshot mentions; fails when one is unreadable.
    method CollectReferences(snapshots: seq<(string, Snapshot)>) returns (hashes: set<string>)
      ensures forall h :: h in hashes <==> exists i :: 0 <= i < |snapshots| && References(snapshots[i].1, h)
    {
      hashes := {};
      for n := 0 to |snapshots|
        invariant forall h :: h in hashes <==> exists i :: 0 <= i < n && References(snapshots[i].1, h)
      {
        var before := hashes;
        var blobs := snapshots[n].1.blobs;
        for m := 0 to |blobs|
          invariant forall h :: h in hashes <==> h in before || exists i :: 0 <= i < m && blobs[i].hash == h
        {
          hashes := hashes + {blobs[m].hash};
        }
        assert forall h :: References(snapshots[n].1, h) <==> exists i :: 0 <= i < |blobs| && blobs[i].hash == h;
      }
    }

    // Remove every listed blob whose name no listed snapshot mentions; remove
    // nothing when one of these cannot be read. Returns how many, and how many
    // bytes.
    method Prune() returns (r: Result<(nat, nat), Error>)
      modifies this
      ensures r.Success? <==> AllReadable(c, old(Seen()))
      ensures r.Failure? ==> store == old(store)
      ensures r.Success? ==>
                && store == old(store) - Orphans(c, old(Seen()))
                && (forall k :: k in old(store) ==> (k !in store <==> Unused(c, old(Seen()), k)))
                && r.value.0 == |Orphans(c, old(Seen()))|
                && r.value.1 + Sum(Sizes(store)) == Sum(Sizes(old(store)))
    {
      var listed := ListSnapshots();
      if listed.Failure? {
        return Failure(listed.error);
      }
      var hashes := CollectReferences(listed.value);
      ghost var seen := Seen();
      ReferencedListed(c, seen, listed.value);
      var keys := ListObjects("blobs");
      OrphansUnmentioned(c, seen, keys, hashes);
      OrphansUnused(c, seen);
      hide Orphans, Referenced, References, Lists, Listed, AllReadable, Unmentioned, Descending, Sum, Sizes, Unused;
      var count, size := Sweep(keys, hashes);
      return Success((count, size));
    }

    // The deletion loop of prune.
    method Sweep(keys: seq<string>, hashes: set<string>) returns (count: nat, size: nat)
      requires forall i, j :: 0 <= i < j < |keys| ==> keys[i] != keys[j]
      requires forall k :: k in keys ==> k in store
      modifies this
      ensures store == old(store) - Unmentioned(keys, hashes) && count == |Unmentioned(keys, hashes)|
      ensures size + Sum(Sizes(store)) == Sum(Sizes(old(store)))
    {
      hide Unmentioned, Sum, Sizes, LastComponent;
      count, size := 0, 0;
      ghost var gone: set<string> := {};
      NoneUnmentioned(hashes);
      for n := 0 to |keys|
        invariant gone == Unmentioned(keys[..n], hashes)
        invariant store == old(store) - gone
        invariant count == |gone|
        invariant size + Sum(Sizes(store)) == Sum(Sizes(old(store)))
      {
        var key := keys[n];
        assert key in keys;
        UnmentionedStep(keys, n, hashes);
        if LastComponent(key) !in hashes {
          SizesWithout(store, key);
          size := size + |store[key]|;
          store := store - {key};
          count := count + 1;
          gone := gone + {key};
        }
      }
      assert keys[..|keys|] == keys;
    }

    // Snapshots, references to no object, and orphaned blobs.
    method Check() returns (r: Result<(nat, nat, nat), Error>)
      ensures r.Success? <==> AllReadable(c, Seen())
      ensures r.Success? ==>
                && r.value.0 == |set k | k in Seen() && SnapshotKey(Seen(), k)|
                && r.value.1 == Sum(MissingBy(c, Seen(), store))
                && r.value.2 == |Orphans(c, Seen())|
    {
      var listed := ListSnapshots();
      if listed.Failure? {
        return Failure(listed.error);
      }
      var snapshots := listed.value;
      var hashes := CollectReferences(snapshots);
      ReferencedListed(c, Seen(), snapshots);
      var missing := CountMissing(snapshots);
      var keys := ListObjects("blobs");
      OrphansUnmentioned(c, Seen(), keys, hashes);
      hide Orphans, Referenced, References, Lists, Listed, AllReadable, Descending, Sum, SnapshotKey, MissingBy;
      var orphans := CountUnmentioned(keys, hashes);
      return Success((|snapshots|, missing, orphans));
    }

    method CountUnmentioned(keys: seq<string>, hashes: set<string>) returns (count: nat)
      requires forall i, j :: 0 <= i < j < |keys| ==> keys[i] != keys[j]
      ensures count == |Unmentioned(keys, hashes)|
    {
      hide Unmentioned;
      count := 0;
      NoneUnmentioned(hashes);
      for n := 0 to |keys|
        invariant count == |Unmentioned(keys[..n], hashes)|
      {
        UnmentionedStep(keys, n, hashes);
        if LastComponent(keys[n]) !in hashes {
          count := count + 1;
        }
      }
      assert keys[..|keys|] == keys;
    }

    method CountDangling(blobs: seq<BlobRef>) returns (missing: nat)
      ensures missing == MissingIn(store, blobs)
    {
      missing := 0;
      for m := 0 to |blobs|
        invariant missing == MissingIn(store, blobs[..m])
      {
        assert blobs[..m + 1][..m] == blobs[..m];
        if BlobPath(blobs[m].hash) !in store {
          missing := missing + 1;
        }
      }
      assert blobs[..|blobs|] == blobs;
    }

    method CountMissing(snapshots: seq<(string, Snapshot)>) returns (missing: nat)
      requires Lists(c, Seen(), snapshots)
      ensures missing == Sum(MissingBy(c, Seen(), store))
      ensures |snapshots| == |set k | k in Seen() && SnapshotKey(Seen(), k)|
    {
      NothingNamed(c, Seen(), store, snapshots);
      hide MissingBy, Named, Sum, Listed, Lists;
      missing := 0;
      for n := 0 to |snapshots|
        invariant missing + Sum(MissingBy(c, Seen(), store) - Named(snapshots[..n])) == Sum(MissingBy(c, Seen(), store))
      {
        MissingStep(c, Seen(), store, snapshots, n);
        var dangling := CountDangling(snapshots[n].1.blobs);
        missing := missing + dangling;
      }
      assert snapshots[..|snapshots|] == snapshots;
      NamedAll(c, Seen(), store, snapshots);
      SumNone();
    }
  }

  lemma SumNone()
    ensures Sum(map[]) == 0
  {
  }

  lemma FoundAll(c: StoreCodec, listed: Store, keys: seq<string>, found: seq<(string, Snapshot)>)
    requires forall i, j :: 0 <= i < j < |keys| ==> keys[i] != keys[j]
    requires forall k :: k in keys <==> k in listed && Under("snapshots", k)
    requires |found| == |keys|
    requires forall i :: 0 <= i < |keys| ==>
               found[i].0 == keys[i] && keys[i] in listed && DecodeSnapshot(c, listed[keys[i]]) == Success(found[i].1)
    ensures Lists(c, listed, found) && AllReadable(c, listed)
  {
    hide DecodeSnapshot, Under;
    forall k | k in listed && SnapshotKey(listed, k)
      ensures DecodeSnapshot(c, listed[k]).Success? && exists i :: 0 <= i < |found| && found[i].0 == k
    {
      assert k in keys;
      var i :| 0 <= i < |keys| && keys[i] == k;
      assert found[i].0 == k;
    }
    forall i | 0 <= i < |found| ensures SnapshotKey(listed, found[i].0) {
      assert keys[i] in keys;
    }
  }

  lemma NoneUnmentioned(hashes: set<string>)
    ensures Unmentioned([], hashes) == {}
  {
  }

  // What is not mentioned by the listed snapshots are the orphans.
  lemma OrphansUnmentioned(c: StoreCodec, listed: Store, keys: seq<string>, hashes: set<string>)
    requires forall k :: k in keys <==> k in listed && Under("blobs", k)
    requires forall h :: h in hashes <==> Referenced(c, listed, h)
    ensures Unmentioned(keys, hashes) == Orphans(c, listed)
  {
    hide Referenced, Under;
  }

  lemma NothingNamed(c: StoreCodec, listed: Store, store: Store, snapshots: seq<(string, Snapshot)>)
    ensures MissingBy(c, listed, store) - Named(snapshots[..0]) == MissingBy(c, listed, store)
  {
  }

  lemma MissingStep(c: StoreCodec, listed: Store, store: Store, snapshots: seq<(string, Snapshot)>, n: nat)
    requires n < |snapshots| && Lists(c, listed, snapshots)
    ensures Sum(MissingBy(c, listed, store) - Named(snapshots[..n]))
            == MissingIn(store, snapshots[n].1.blobs) + Sum(MissingBy(c, listed, store) - Named(snapshots[..n + 1]))
  {
    NamedStep(snapshots, n);
    var rest := MissingBy(c, listed, store) - Named(snapshots[..n]);
    var key := snapshots[n].0;
    assert SnapshotKey(listed, key) && DecodeSnapshot(c, listed[key]) == Success(snapshots[n].1);
    SumSplit(rest, key);
    assert rest - {key} == MissingBy(c, listed, store) - Named(snapshots[..n + 1]);
  }

  ghost function Named(snapshots: seq<(string, Snapshot)>): set<string> {
    set i | 0 <= i < |snapshots| :: snapshots[i].0
  }

  lemma NamedStep(snapshots: seq<(string, Snapshot)>, n: nat)
    requires n < |snapshots| && forall i, j :: 0 <= i < j < |snapshots| ==> snapshots[i].0 != snapshots[j].0
    ensures snapshots[n].0 !in Named(snapshots[..n])
    ensures Named(snapshots[..n + 1]) == Named(snapshots[..n]) + {snapshots[n].0}
  {
  }

  lemma {:induction false} NamedSize(snapshots: seq<(string, Snapshot)>, n: nat)
    requires n <= |snapshots| && forall i, j :: 0 <= i < j < |snapshots| ==> snapshots[i].0 != snapshots[j].0
    ensures |Named(snapshots[..n])| == n
  {
    if n == 0 {
    } else {
      NamedSize(snapshots, n - 1);
      NamedStep(snapshots, n - 1);
    }
  }

  lemma NamedAll(c: StoreCodec, listed: Store, store: Store, snapshots: seq<(string, Snapshot)>)
    requires Lists(c, listed, snapshots)
    ensures |snapshots| == |set k | k in listed && SnapshotKey(listed, k)|
    ensures MissingBy(c, listed, store) - Named(snapshots) == map[]
  {
    NamedSize(snapshots, |snapshots|);
    assert snapshots[..|snapshots|] == snapshots;
    hide DecodeSnapshot, MissingIn;
    var all := set k | k in listed && SnapshotKey(listed, k);
    forall k | k in all ensures k in Named(snapshots) {
      var i :| 0 <= i < |snapshots| && snapshots[i].0 == k;
    }
    assert Named(snapshots) == all;
  }

  lemma ReferencedListed(c: StoreCodec, listed: Store, snapshots: seq<(string, Snapshot)>)
    requires Lists(c, listed, snapshots)
    ensures forall h :: Referenced(c, listed, h) <==> exists i :: 0 <= i < |snapshots| && References(snapshots[i].1, h)
  {
    hide DecodeSnapshot, References;
  }

  // ------------------------------------------------------------------ facts

  // Pruning deletes no referenced blob and no snapshot.
  lemma OrphansSpare(c: StoreCodec, store: Store, hash: string, id: string)
    requires SlashFree(hash) && Referenced(c, store, hash)
    ensures BlobPath(hash) !in Orphans(c, store) && SnapshotPath(id) !in Orphans(c, store)
  {
    BlobPathInverse(hash);
    PathsApart(hash, id);
  }

  // A repository whose snapshots mention only names a path can carry.
  ghost predicate ProperHashes(c: StoreCodec, store: Store) {
    forall h :: Referenced(c, store, h) ==> SlashFree(h)
  }

  lemma {:induction false} MissingUnchanged(c: StoreCodec, store: Store, blobs: seq<BlobRef>)
    requires forall i :: 0 <= i < |blobs| ==> SlashFree(blobs[i].hash) && Referenced(c, store, blobs[i].hash)
    ensures MissingIn(store - Orphans(c, store), blobs) == MissingIn(store, blobs)
  {
    if blobs == [] {
    } else {
      MissingUnchanged(c, store, blobs[..|blobs| - 1]);
      OrphansSpare(c, store, blobs[|blobs| - 1].hash, "");
    }
  }

  // Prune and check agree: what prune removes is what check counted as
  // orphaned, after it check finds no orphan, the same snapshots and the same
  // dangling references, and every chunk a snapshot mentions reads as before.
  lemma PruneThenCheck(c: StoreCodec, store: Store)
    requires AllReadable(c, store) && ProperHashes(c, store)
    ensures var after := store - Orphans(c, store);
            && Orphans(c, after) == {} && AllReadable(c, after)
            && (set k | k in after && SnapshotKey(after, k)) == (set k | k in store && SnapshotKey(store, k))
            && MissingBy(c, after, after) == MissingBy(c, store, store)
            && (forall h :: Referenced(c, store, h) <==> Referenced(c, after, h))
            && (forall h :: Referenced(c, store, h) ==> GetChunk(c, after, h) == GetChunk(c, store, h))
  {
    var after := store - Orphans(c, store);
    forall k | SnapshotKey(store, k) ensures k in after {
      DirectoriesApart(k);
    }
    forall h ensures Referenced(c, store, h) <==> Referenced(c, after, h) {
      if Referenced(c, store, h) {
        var k :| k in store && SnapshotKey(store, k)
                 && DecodeSnapshot(c, store[k]).Success? && References(DecodeSnapshot(c, store[k]).value, h);
        assert SnapshotKey(after, k);
      }
      if Referenced(c, after, h) {
        var k :| k in after && SnapshotKey(after, k)
                 && DecodeSnapshot(c, after[k]).Success? && References(DecodeSnapshot(c, after[k]).value, h);
        assert SnapshotKey(store, k);
      }
    }
    forall h | Referenced(c, store, h) ensures GetChunk(c, after, h) == GetChunk(c, store, h) {
      OrphansSpare(c, store, h, "");
    }
    forall k | k in store && SnapshotKey(store, k)
      ensures var blobs := DecodeSnapshot(c, store[k]).value.blobs;
              MissingIn(after, blobs) == MissingIn(store, blobs)
    {
      var s := DecodeSnapshot(c, store[k]).value;
      forall i | 0 <= i < |s.blobs| ensures SlashFree(s.blobs[i].hash) && Referenced(c, store, s.blobs[i].hash) {
        assert References(s, s.blobs[i].hash);
      }
      MissingUnchanged(c, store, s.blobs);
    }
    assert MissingBy(c, after, after).Keys == MissingBy(c, store, store).Keys;
  }

  // Fetching a blob list in order, as restore does.
  function Fetch(c: StoreCodec, store: Store, blobs: seq<BlobRef>): Result<bytes, Error> {
    if blobs == [] then Success([])
    else
      match GetChunk(c, store, blobs[0].hash)
      case Failure(e) => Failure(e)
      case Success(raw) =>
        match Fetch(c, store, blobs[1..])
        case Failure(e) => Failure(e)
        case Success(rest) => Success(raw + rest)
  }

  // A list of digests whose objects all open fetches exactly the chunks.
  lemma {:induction false} FetchGives(c: StoreCodec, store: Store, blobs: seq<BlobRef>, chunks: seq<bytes>)
    requires c.CollisionFree() && |blobs| == |chunks|
    requires forall i :: 0 <= i < |blobs| ==>
               blobs[i].hash == c.sha256(chunks[i]) && GetChunk(c, store, blobs[i].hash).Success?
    ensures Fetch(c, store, blobs) == Success(Flatten(chunks))
  {
    if blobs == [] {
    } else {
      FetchGives(c, store, blobs[1..], chunks[1..]);
    }
  }
}
