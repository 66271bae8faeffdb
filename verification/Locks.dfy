// The lock row and the checkpoints: the three guarded statements that fence runs from each other.
module Locks {
  import opened Basics
  import opened Events

  const LOCK_STALE_MS: int := 180_000

  /** Times are milliseconds; one stored text layout keeps text order equal to time order. */
  datatype Lock = Lock(acquiredAt: int, owner: string)

  datatype Checkpoint = Checkpoint(lastLedger: nat, deferAttempts: nat)

  datatype Control = Control(lock: Option<Lock>, state: map<Contract, Checkpoint>)

  predicate Holds(c: Control, owner: string) {
    c.lock.Some? && c.lock.value.owner == owner
  }

  /** INSERT .. ON CONFLICT DO UPDATE .. WHERE acquired_at < stale: true when the row is now ours. */
  function Acquire(c: Control, owner: string, now: int): (Control, bool) {
    if c.lock.None? || c.lock.value.acquiredAt < now - LOCK_STALE_MS
    then (c.(lock := Some(Lock(now, owner))), true)
    else (c, false)
  }

  function Release(c: Control, owner: string): Control {
    if Holds(c, owner) then c.(lock := None) else c
  }

  datatype SaveResult = Saved | LostLock | MovedPast

  /** The lock refresh and the guarded checkpoint update commit together; then the run looks at both. */
  function Save(c: Control, contract: Contract, ck: Checkpoint, owner: string, now: int): (Control, SaveResult) {
    if !Holds(c, owner) then (c, LostLock)
    else
      var refreshed := c.(lock := Some(Lock(now, owner)));
      if contract in c.state && c.state[contract].lastLedger <= ck.lastLedger
      then (refreshed.(state := c.state[contract := ck]), Saved)
      else (refreshed, MovedPast)
  }
}
