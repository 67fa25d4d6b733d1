// What a lock file says, and the three decisions the lock code takes on one:
// is it active, does it block a newcomer, and must a contender yield to it.
module LockRules {
  import opened Wrappers

  datatype LockType = Shared | Exclusive

  // Eight random bytes in lower-case hex. All ids have the same length, so
  // comparing them as strings is comparing the numbers they spell.
  type LockId = nat

  // Times are milliseconds.
  datatype LockInfo = LockInfo(
    lockId: LockId,
    lockType: LockType,
    createdAt: int,
    lastHeartbeat: Option<int>)

  // The object stored at locks/<id>; Garbage does not parse as JSON.
  datatype LockFile = Readable(info: LockInfo) | Garbage

  const HEARTBEAT_TTL := 15 * 60 * 1000
  const LEGACY_TTL := 2 * 60 * 60 * 1000

  predicate IsActive(info: LockInfo, now: int) {
    match info.lastHeartbeat
    case Some(beat) => now - beat < HEARTBEAT_TTL
    case None => now - info.createdAt < LEGACY_TTL
  }

  // The first-phase check: an exclusive request is blocked by any active lock,
  // a shared one only by an exclusive lock.
  predicate Blocks(mine: LockType, existing: LockInfo) {
    match mine
    case Exclusive => true
    case Shared => existing.lockType == Exclusive
  }

  predicate Conflicts(a: LockType, b: LockType) {
    a == Exclusive || b == Exclusive
  }

  predicate Older(a: LockInfo, b: LockInfo) {
    a.createdAt < b.createdAt || (a.createdAt == b.createdAt && a.lockId < b.lockId)
  }

  // The verify-phase check.
  predicate YieldsTo(mine: LockInfo, existing: LockInfo) {
    && existing.lockId != mine.lockId
    && Blocks(mine.lockType, existing)
    && Older(existing, mine)
  }
}
