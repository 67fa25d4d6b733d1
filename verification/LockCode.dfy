// The lock functions as one process runs them on a backend. What other
// processes do to the lock files while this one sleeps is a parameter.
module LockCode {
  import opened Wrappers
  import opened LockRules

  datatype LockError = Blocked(holder: LockInfo) | Yielded(elder: LockInfo)

  predicate ActiveIn(files: map<LockId, LockFile>, q: LockId, now: int) {
    q in files && files[q].Readable? && IsActive(files[q].info, now)
  }

  ghost function ActiveInfos(files: map<LockId, LockFile>, now: int): set<LockInfo> {
    set q | q in files && ActiveIn(files, q, now) :: files[q].info
  }

  predicate OnlyShared(files: map<LockId, LockFile>) {
    forall q :: q in files && files[q].Readable? ==> files[q].info.lockType == Shared
  }

  // A heartbeat of less than 15 minutes ago, or none and less than two hours old.
  predicate Beating(info: LockInfo, now: int) {
    && (info.lastHeartbeat.Some? ==> now - info.lastHeartbeat.value < 15 * 60 * 1000)
    && (info.lastHeartbeat.None? ==> now - info.createdAt < 2 * 60 * 60 * 1000)
  }

  ghost predicate AllBeating(files: map<LockId, LockFile>, now: int, active: seq<LockInfo>) {
    forall info :: info in active <==> exists q :: q in files && files[q] == Readable(info) && Beating(info, now)
  }

  // What an unlock leaves.
  ghost predicate Unlocked(before: map<LockId, LockFile>, files: map<LockId, LockFile>, now: int, force: bool) {
    && (forall q :: q in files ==> q in before && files[q] == before[q])
    && (force ==> files == map[])
    && (!force ==>
          && (forall q :: q in files <==> q in before && (before[q].Readable? ==> Beating(before[q].info, now)))
          && ActiveInfos(files, now) == ActiveInfos(before, now))
  }

  predicate ConflictAt(files: map<LockId, LockFile>, q: LockId, kind: LockType, now: int) {
    && q in files && files[q].Readable? && Beating(files[q].info, now)
    && (kind == Exclusive || files[q].info.lockType == Exclusive)
  }

  // Some live lock is exclusive, or meets an exclusive request.
  ghost predicate Conflicting(files: map<LockId, LockFile>, kind: LockType, now: int) {
    exists q :: ConflictAt(files, q, kind, now)
  }

  // Such a lock of another id was created earlier, or at once under a lower id.
  ghost predicate Elder(files: map<LockId, LockFile>, kind: LockType, id: LockId, created: int, now: int) {
    exists q :: ConflictAt(files, q, kind, now) && files[q].info.lockId != id && files[q].info.createdAt <= created
                && (files[q].info.createdAt == created ==> files[q].info.lockId < id)
  }

  lemma BlockedMeans(files: map<LockId, LockFile>, kind: LockType, now: int)
    ensures (exists info :: info in ActiveInfos(files, now) && Blocks(kind, info)) <==> Conflicting(files, kind, now)
    ensures kind == Shared && OnlyShared(files) ==> !Conflicting(files, kind, now)
  {
    if q :| ConflictAt(files, q, kind, now) {
      assert files[q].info in ActiveInfos(files, now) && Blocks(kind, files[q].info);
    }
    if info :| info in ActiveInfos(files, now) && Blocks(kind, info) {
      var q :| q in files && ActiveIn(files, q, now) && files[q].info == info;
      assert ConflictAt(files, q, kind, now);
    }
  }

  lemma YieldsMeans(others: map<LockId, LockFile>, own: LockInfo, now: int)
    requires own.lockId !in others
    ensures (exists info :: info in ActiveInfos(others[own.lockId := Readable(own)], now) && YieldsTo(own, info)) <==>
            Elder(others, own.lockType, own.lockId, own.createdAt, now)
    ensures own.lockType == Shared && OnlyShared(others) ==>
              !Elder(others, own.lockType, own.lockId, own.createdAt, now)
  {
    var files := others[own.lockId := Readable(own)];
    if info :| info in ActiveInfos(files, now) && YieldsTo(own, info) {
      var q :| q in files && ActiveIn(files, q, now) && files[q].info == info;
      assert q in others && ConflictAt(others, q, own.lockType, now);
    }
    if q :| ConflictAt(others, q, own.lockType, now) && others[q].info.lockId != own.lockId
            && others[q].info.createdAt <= own.createdAt
            && (others[q].info.createdAt == own.createdAt ==> others[q].info.lockId < own.lockId) {
      assert files[q] == others[q] && ActiveIn(files, q, now);
      assert others[q].info in ActiveInfos(files, now) && YieldsTo(own, others[q].info);
    }
  }

  // unlock removes stale locks, and with force everything.
  predicate Removable(file: LockFile, now: int, force: bool) {
    force || (file.Readable? && !IsActive(file.info, now))
  }

  // The conflict check over the first listing.
  method FirstBlocking(existing: seq<LockInfo>, kind: LockType) returns (found: Option<LockInfo>)
    ensures found.Some? ==> found.value in existing && Blocks(kind, found.value)
    ensures found.Some? <==> exists info :: info in (set info | info in existing) && Blocks(kind, info)
  {
    for i := 0 to |existing|
      invariant forall j :: 0 <= j < i ==> !Blocks(kind, existing[j])
    {
      if Blocks(kind, existing[i]) {
        assert existing[i] in (set info | info in existing);
        return Some(existing[i]);
      }
    }
    return None;
  }

  // The check over the second.
  method FirstElder(verify: seq<LockInfo>, own: LockInfo) returns (found: Option<LockInfo>)
    ensures found.Some? ==> found.value in verify && YieldsTo(own, found.value)
    ensures found.Some? <==> exists info :: info in (set info | info in verify) && YieldsTo(own, info)
  {
    for i := 0 to |verify|
      invariant forall j :: 0 <= j < i ==> !YieldsTo(own, verify[j])
    {
      if YieldsTo(own, verify[i]) {
        assert verify[i] in (set info | info in verify);
        return Some(verify[i]);
      }
    }
    return None;
  }

  class LockBackend {
    var files: map<LockId, LockFile>

    constructor ()
      ensures files == map[]
    {
      files := map[];
    }

    // The keys under locks/, each once.
    method ListKeys() returns (keys: seq<LockId>)
      ensures forall i, j :: 0 <= i < j < |keys| ==> keys[i] != keys[j]
      ensures forall q :: q in keys <==> q in files
    {
      keys := [];
      var left := files.Keys;
      while left != {}
        invariant left <= files.Keys
        invariant forall i, j :: 0 <= i < j < |keys| ==> keys[i] != keys[j]
        invariant forall q :: q in keys <==> q in files && q !in left
        decreases |left|
      {
        var q :| q in left;
        keys := keys + [q];
        left := left - {q};
      }
    }

    // What parses and has a heartbeat of less than 15 minutes, or no heartbeat and
    // a creation time of less than two hours ago.
    method ListActiveLocks(now: int) returns (active: seq<LockInfo>)
      ensures (set info | info in active) == ActiveInfos(files, now)
      ensures AllBeating(files, now, active)
    {
      var keys := ListKeys();
      active := [];
      for i := 0 to |keys|
        invariant forall info :: info in active <==>
                    exists j :: 0 <= j < i && ActiveIn(files, keys[j], now) && files[keys[j]].info == info
      {
        if files[keys[i]].Readable? && IsActive(files[keys[i]].info, now) {
          active := active + [files[keys[i]].info];
        }
      }
    }

    // Refused at once exactly for an active lock that either is exclusive or meets
    // an exclusive request, and later exactly for one that besides is older.
    // `now` is the clock when the lock is stamped, `before` and `after` when the
    // two listings are read. While this process sleeps the other lock files
    // become `others`; nobody else writes under this process's id.
    method AcquireRaw(kind: LockType, id: LockId, before: int, now: int, after: int, others: map<LockId, LockFile>)
      returns (r: Result<LockInfo, LockError>)
      requires id !in files && id !in others
      modifies this
      ensures r.Failure? && r.error.Blocked? <==>
              exists info :: info in ActiveInfos(old(files), before) && Blocks(kind, info)
      ensures r.Failure? && r.error.Blocked? ==> files == old(files)
      ensures var own := LockInfo(id, kind, now, Some(now));
              !(r.Failure? && r.error.Blocked?) ==>
                && (r.Failure? <==>
                       exists info :: info in ActiveInfos(others[id := Readable(own)], after) && YieldsTo(own, info))
                && files == (if r.Failure? then others else others[id := Readable(own)])
                && (r.Success? ==> r.value == own)
      ensures r.Failure? && r.error.Blocked? <==> Conflicting(old(files), kind, before)
      ensures !(r.Failure? && r.error.Blocked?) ==> (r.Failure? <==> Elder(others, kind, id, now, after))
      ensures kind == Shared && OnlyShared(old(files)) && OnlyShared(others) ==> r.Success?
    {
      BlockedMeans(files, kind, before);
      YieldsMeans(others, LockInfo(id, kind, now, Some(now)), after);
      hide ActiveInfos, IsActive, Blocks, YieldsTo, Conflicting, Elder, OnlyShared, AllBeating;
      var existing := ListActiveLocks(before);
      var blocker := FirstBlocking(existing, kind);
      if blocker.Some? {
        return Failure(Blocked(blocker.value));
      }

      var own := LockInfo(id, kind, now, Some(now));
      files := files[id := Readable(own)];
      files := others[id := Readable(own)];  // asleep

      var verify := ListActiveLocks(after);
      var elder := FirstElder(verify, own);
      if elder.Some? {
        files := files - {id};
        assert files == others;
        return Failure(Yielded(elder.value));
      }
      r := Success(own);
    }

    method Delete(id: LockId)
      modifies this
      ensures files == old(files) - {id}
    {
      files := files - {id};
    }

    // Without force, exactly what is not readable or still active stays.
    method UnlockAll(now: int, force: bool) returns (removed: nat)
      modifies this
      ensures Unlocked(old(files), files, now, force)
      ensures files == Kept(old(files), now, force)
      ensures removed == |old(files)| - |files|
    {
      UnlockMeans(files, now, force);
      hide Unlocked;
      var keys := ListKeys();
      WithoutAll(files, keys, now, force);
      hide Without, Removable, Kept;
      removed := 0;
      for i := 0 to |keys|
        invariant files == Without(old(files), keys[..i], now, force)
        invariant removed + |files| == |old(files)|
      {
        assert keys[i] in keys;
        WithoutStep(old(files), keys, i, now, force);
        if Removable(files[keys[i]], now, force) {
          files := files - {keys[i]};
          removed := removed + 1;
        }
      }
      assert keys[..|keys|] == keys;
    }
  }

  ghost function Kept(files: map<LockId, LockFile>, now: int, force: bool): map<LockId, LockFile> {
    map q | q in files && !Removable(files[q], now, force) :: files[q]
  }

  lemma UnlockMeans(files: map<LockId, LockFile>, now: int, force: bool)
    ensures Unlocked(files, Kept(files, now, force), now, force)
  {
    var left := Kept(files, now, force);
    if !force {
      forall q ensures ActiveIn(left, q, now) <==> ActiveIn(files, q, now) {
      }
      hide IsActive;
      assert forall q :: ActiveIn(left, q, now) ==> left[q] == files[q];
      assert ActiveInfos(left, now) == ActiveInfos(files, now);
    }
  }

  ghost function Without(files: map<LockId, LockFile>, keys: seq<LockId>, now: int,
                         force: bool): map<LockId, LockFile> {
    map q | q in files && (q in keys ==> !Removable(files[q], now, force)) :: files[q]
  }

  lemma WithoutAll(files: map<LockId, LockFile>, keys: seq<LockId>, now: int, force: bool)
    requires forall q :: q in keys <==> q in files
    ensures Without(files, [], now, force) == files
    ensures Without(files, keys, now, force) == Kept(files, now, force)
  {
    hide Removable;
  }

  lemma WithoutStep(files: map<LockId, LockFile>, keys: seq<LockId>, i: nat, now: int, force: bool)
    requires i < |keys| && keys[i] in files && forall a, b :: 0 <= a < b < |keys| ==> keys[a] != keys[b]
    ensures var before := Without(files, keys[..i], now, force);
            && keys[i] in before && before[keys[i]] == files[keys[i]]
            && Without(files, keys[..i + 1], now, force)
               == (if Removable(files[keys[i]], now, force) then before - {keys[i]} else before)
            && |before - {keys[i]}| == |before| - 1
  {
    hide Removable;
    assert keys[..i + 1] == keys[..i] + [keys[i]];
  }

  // The guard of a held lock; `lock` is taken out by the first release.
  class LockGuard {
    var lock: Option<LockId>
    const backend: LockBackend

    constructor (id: LockId, backend: LockBackend)
      ensures lock == Some(id) && this.backend == backend
    {
      lock := Some(id);
      this.backend := backend;
    }

    method Release()
      modifies this, backend
      ensures lock == None
      ensures backend.files == old(if lock.Some? then backend.files - {lock.value} else backend.files)
    {
      if lock.Some? {
        var id := lock.value;
        lock := None;
        backend.Delete(id);
      }
    }
  }
}
