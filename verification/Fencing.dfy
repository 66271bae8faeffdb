// Many runs at once: every interleaving of their database steps, takeovers and crashes included.
module Fencing {
  import opened Basics
  import opened Events
  import opened Locks
  import opened Scan
  import opened Indexer

  type Checkpoints = m: map<Contract, Checkpoint> | forall c: Contract :: c in m
    witness map c: Contract :: Checkpoint(0, 0)

  /** Where one run stands between its database steps; `view` are the checkpoints as it knows them. */
  datatype Phase =
    | Locked
    | Scanning(health: Health, view: Checkpoints, contract: Contract, head: nat)
    | Leaving
    | Gone

  /** The shared rows, the runs by their (fresh) owner ids, and the time. */
  datatype System = System(control: Control, runs: map<string, Phase>, now: int)

  datatype Action =
    | Tick(to: int)
    | Start(owner: string)
    | Look(owner: string, health: Health, allowClamp: bool)
    | Clamp(owner: string)
    | Page(owner: string, reached: nat)
    | Defer(owner: string)
    | Next(owner: string)
    | Leave(owner: string)
    | Crash(owner: string)

  predicate NeedsClamp(r: Phase)
    requires r.Scanning?
  {
    var last := r.view[r.contract].lastLedger;
    last < r.head && last + 1 < r.health.oldest
  }

  predicate MayPage(r: Phase)
    requires r.Scanning?
  {
    r.view[r.contract].lastLedger < r.head && !NeedsClamp(r)
  }

  function AfterContract(r: Phase): Phase
    requires r.Scanning?
  {
    match r.contract
    case IdentityContract => r.(contract := ReputationContract, head := Min(r.head, r.view[IdentityContract].lastLedger))
    case ReputationContract => r.(contract := ValidationContract)
    case ValidationContract => Leaving
  }

  function WithRun(s: System, owner: string, phase: Phase): System {
    s.(runs := s.runs[owner := phase])
  }

  /** A fenced save by a run: on success it goes on as `next`, otherwise it throws and leaves. */
  function SaveBy(s: System, owner: string, c: Contract, ck: Checkpoint, next: Phase): System {
    var saved := Save(s.control, c, ck, owner, s.now);
    WithRun(s.(control := saved.0), owner, if saved.1.Saved? then next else Leaving)
  }

  predicate Scans(s: System, owner: string) {
    owner in s.runs && s.runs[owner].Scanning?
  }

  /** One atomic step, or None where a run cannot take it. */
  function Take(s: System, a: Action): Option<System> {
    match a
    case Tick(to) =>
      if to < s.now then None else Some(s.(now := to))
    case Start(owner) =>
      if owner in s.runs || Holds(s.control, owner) then None
      else
        var acquired := Acquire(s.control, owner, s.now);
        Some(WithRun(s.(control := acquired.0), owner, if acquired.1 then Locked else Gone))
    case Look(owner, health, allowClamp) =>
      if owner !in s.runs || !s.runs[owner].Locked? || health.oldest > health.latest then None
      else if exists c: Contract :: c !in s.control.state then Some(WithRun(s, owner, Leaving))
      else if !allowClamp && !Unclamped(s.control.state, health.oldest) then Some(WithRun(s, owner, Leaving))
      else Some(WithRun(s, owner, Scanning(health, s.control.state, IdentityContract, health.latest)))
    case Clamp(owner) =>
      if !Scans(s, owner) || !NeedsClamp(s.runs[owner]) then None
      else
        var r := s.runs[owner];
        var ck := Checkpoint(r.health.oldest - 1, r.view[r.contract].deferAttempts);
        Some(SaveBy(s, owner, r.contract, ck, r.(view := r.view[r.contract := ck])))
    case Page(owner, reached) =>
      if !Scans(s, owner) || !MayPage(s.runs[owner]) then None
      else
        var r := s.runs[owner];
        if !(r.view[r.contract].lastLedger < reached <= r.head) then None
        else Some(SaveBy(s, owner, r.contract, Checkpoint(reached, 0), r.(view := r.view[r.contract := Checkpoint(reached, 0)])))
    case Defer(owner) =>
      if !Scans(s, owner) || !MayPage(s.runs[owner]) then None
      else
        var r := s.runs[owner];
        var ck := Deferral(r.view[r.contract]);
        Some(SaveBy(s, owner, r.contract, ck, AfterContract(r.(view := r.view[r.contract := ck]))))
    case Next(owner) =>
      if !Scans(s, owner) || NeedsClamp(s.runs[owner]) then None else Some(WithRun(s, owner, AfterContract(s.runs[owner])))
    case Leave(owner) =>
      if owner !in s.runs || s.runs[owner].Gone? then None
      else Some(WithRun(s.(control := Release(s.control, owner)), owner, Gone))
    case Crash(owner) =>
      if owner !in s.runs || s.runs[owner].Gone? then None else Some(WithRun(s, owner, Gone))
  }

  function Deferral(ck: Checkpoint): Checkpoint {
    Checkpoint(ck.lastLedger, ck.deferAttempts + 1)
  }

  // ---------------------------------------------------------------- behaviours

  datatype Behaviour = Behaviour(states: seq<System>, actions: seq<Action>)

  /** Any initial rows with dependents behind identity, no run yet, then any lawful steps. */
  ghost predicate Lawful(b: Behaviour) {
    && |b.states| == |b.actions| + 1
    && Inv(b.states[0])
    && forall i :: 0 <= i < |b.actions| ==> Take(b.states[i], b.actions[i]) == Some(b.states[i + 1])
  }

  /** The holder of the lock knows the checkpoints, and its head keeps dependents behind identity. */
  ghost predicate HolderInformed(control: Control, r: Phase)
    requires forall c: Contract :: c in control.state
  {
    r.Scanning? ==>
      && r.view == control.state && r.health.oldest <= r.health.latest
      && (r.contract == IdentityContract ==> r.head == r.health.latest)
      && LawfulHead(r.health, control.state, r.contract, r.head)
  }

  ghost predicate Inv(s: System) {
    && (forall c: Contract :: c in s.control.state)
    && BehindIdentity(s.control.state)
    && forall o | o in s.runs && Holds(s.control, o) :: HolderInformed(s.control, s.runs[o])
  }

  lemma SaveByKeepsInv(s: System, owner: string, ck: Checkpoint, next: Phase)
    requires Inv(s) && Scans(s, owner)
    requires var c := s.runs[owner].contract;
             Holds(s.control, owner) ==>
               && s.control.state[c].lastLedger <= ck.lastLedger
               && BehindIdentity(s.control.state[c := ck])
               && HolderInformed(s.control.(state := s.control.state[c := ck]), next)
    ensures Inv(SaveBy(s, owner, s.runs[owner].contract, ck, next))
  {
    hide BehindIdentity;
    hide LawfulHead;
  }

  lemma AfterContractInformed(control: Control, r: Phase)
    requires (forall c: Contract :: c in control.state) && r.Scanning? && !NeedsClamp(r) && HolderInformed(control, r)
    ensures HolderInformed(control, AfterContract(r))
  {
  }

  /** A save of the holder's own contract, no further than its head or the clamp. */
  lemma HolderSaves(control: Control, r: Phase, ck: Checkpoint)
    requires (forall c: Contract :: c in control.state) && BehindIdentity(control.state) && r.Scanning? && HolderInformed(control, r)
    requires r.view[r.contract].lastLedger <= ck.lastLedger
    requires ck.lastLedger <= r.head || (NeedsClamp(r) && ck.lastLedger == r.health.oldest - 1)
    ensures BehindIdentity(control.state[r.contract := ck])
    ensures HolderInformed(control.(state := control.state[r.contract := ck]), r.(view := r.view[r.contract := ck]))
  {
    StaysBehind(r.health, control.state, r.contract, r.head, ck);
  }

  /** Every step keeps the invariant: in every reachable state the dependents are behind identity. */
  lemma StepKeepsInv(s: System, a: Action)
    requires Inv(s) && Take(s, a).Some?
    ensures Inv(Take(s, a).value)
  {
    match a
    case Tick(_) =>
    case Start(_) =>
    case Look(_, _, _) =>
    case Leave(_) =>
    case Crash(_) =>
    case Clamp(o) => SavingStepKeepsInv(s, a);
    case Page(o, _) => SavingStepKeepsInv(s, a);
    case Defer(o) => SavingStepKeepsInv(s, a);
    case Next(o) =>
      if Holds(s.control, o) {
        AfterContractInformed(s.control, s.runs[o]);
      }
  }

  lemma SavingStepKeepsInv(s: System, a: Action)
    requires Inv(s) && Take(s, a).Some? && (a.Clamp? || a.Page? || a.Defer?)
    ensures Inv(Take(s, a).value)
  {
    hide BehindIdentity;
    hide HolderInformed;
    var r := s.runs[a.owner];
    var was := r.view[r.contract];
    var ck := if a.Clamp? then Checkpoint(r.health.oldest - 1, was.deferAttempts)
              else if a.Page? then Checkpoint(a.reached, 0) else Deferral(was);
    var scanning := r.(view := r.view[r.contract := ck]);
    var next := if a.Defer? then AfterContract(scanning) else scanning;
    if Holds(s.control, a.owner) {
      HolderSaves(s.control, r, ck);
      assert s.control.state[r.contract] == was by { HolderKnows(s.control, r); }
      if a.Defer? {
        AfterContractInformed(s.control.(state := s.control.state[r.contract := ck]), scanning);
      }
    }
    SaveByKeepsInv(s, a.owner, ck, next);
  }

  lemma HolderKnows(control: Control, r: Phase)
    requires (forall c: Contract :: c in control.state) && r.Scanning? && HolderInformed(control, r)
    ensures r.view == control.state
  {
  }

  lemma {:induction false} AlwaysInv(b: Behaviour, i: nat)
    requires Lawful(b) && i < |b.states|
    ensures Inv(b.states[i])
  {
    hide Inv;
    hide Take;
    if i > 0 {
      AlwaysInv(b, i - 1);
      assert Take(b.states[i - 1], b.actions[i - 1]) == Some(b.states[i - 1 + 1]);
      StepKeepsInv(b.states[i - 1], b.actions[i - 1]);
    }
  }

  // ---------------------------------------------------------------- safety over every behaviour

  /** The run that takes the step, if any. */
  predicate ActsFor(a: Action, owner: string) {
    !a.Tick? && a.owner == owner
  }

  /** Only the current owner of the lock changes a checkpoint, and never moves it back. */
  lemma OnlyHolderMoves(s: System, a: Action, c: Contract)
    requires Inv(s) && Take(s, a).Some?
    ensures c in Take(s, a).value.control.state
    ensures s.control.state[c].lastLedger <= Take(s, a).value.control.state[c].lastLedger
    ensures Take(s, a).value.control.state[c] != s.control.state[c] ==> !a.Tick? && Holds(s.control, a.owner)
  {
    hide BehindIdentity;
    hide HolderInformed;
  }

  /** last_ledger never decreases, and dependents never overtake identity, over every behaviour. */
  lemma {:induction false} CheckpointsOnlyAdvance(b: Behaviour, i: nat, j: nat, c: Contract)
    requires Lawful(b) && i <= j < |b.states|
    ensures c in b.states[i].control.state && c in b.states[j].control.state
    ensures b.states[i].control.state[c].lastLedger <= b.states[j].control.state[c].lastLedger
    ensures IdentityContract in b.states[j].control.state
    ensures b.states[j].control.state[c].lastLedger <= b.states[j].control.state[IdentityContract].lastLedger
    decreases j
  {
    hide Take;
    AlwaysInv(b, i);
    AlwaysInv(b, j);
    if i < j {
      CheckpointsOnlyAdvance(b, i, j - 1, c);
      AlwaysInv(b, j - 1);
      assert Take(b.states[j - 1], b.actions[j - 1]) == Some(b.states[j - 1 + 1]);
      OnlyHolderMoves(b.states[j - 1], b.actions[j - 1], c);
    }
  }

  predicate LostTheLock(s: System, owner: string) {
    owner in s.runs && !Holds(s.control, owner)
  }

  /** A run that lost the lock changes neither the checkpoints nor its successor's lock, ever again. */
  lemma LostRunIsHarmless(s: System, a: Action, owner: string)
    requires LostTheLock(s, owner) && Take(s, a).Some?
    ensures LostTheLock(Take(s, a).value, owner)
    ensures ActsFor(a, owner) ==> Take(s, a).value.control == s.control
  {
  }

  lemma {:induction false} LostRunStaysHarmless(b: Behaviour, owner: string, i: nat, j: nat)
    requires Lawful(b) && i <= j < |b.actions| && owner in b.states[i].runs && !Holds(b.states[i].control, owner)
    ensures owner in b.states[j].runs && !Holds(b.states[j].control, owner)
    ensures ActsFor(b.actions[j], owner) ==> b.states[j + 1].control == b.states[j].control
    decreases j
  {
    hide Take;
    hide Inv;
    if i < j {
      LostRunStaysHarmless(b, owner, i, j - 1);
      assert Take(b.states[j - 1], b.actions[j - 1]) == Some(b.states[j - 1 + 1]);
      LostRunIsHarmless(b.states[j - 1], b.actions[j - 1], owner);
    }
    assert Take(b.states[j], b.actions[j]) == Some(b.states[j + 1]);
    LostRunIsHarmless(b.states[j], b.actions[j], owner);
  }

  /** Time and refreshes: the lock only moves to a later time, or is released by its own run, or was stale. */
  lemma LockStep(s: System, a: Action)
    requires Take(s, a).Some? && s.control.lock.Some?
    ensures var l, s' := s.control.lock.value, Take(s, a).value;
            || s'.control.lock == s.control.lock
            || (s'.control.lock == Some(Lock(s.now, l.owner)) && ActsFor(a, l.owner))
            || (a == Leave(l.owner) && s'.control.lock == None)
            || (a.Start? && l.acquiredAt + LOCK_STALE_MS < s.now && s'.control.lock == Some(Lock(s.now, a.owner)))
    ensures s.now <= Take(s, a).value.now
  {
    hide BehindIdentity;
    hide HolderInformed;
  }

  /**
   * A live holder is replaced only when stale: while a run neither leaves nor goes LOCK_STALE_MS
   * without acquiring or saving, the lock stays its own.
   */
  lemma {:induction false} LiveHolderKeepsLock(b: Behaviour, owner: string, i: nat, j: nat)
    requires Lawful(b) && i <= j < |b.states| && Holds(b.states[i].control, owner)
    requires forall k | i <= k < j :: b.actions[k] != Leave(owner)
    requires forall k | i <= k < j && Holds(b.states[k].control, owner) ::
               b.states[k].now <= b.states[k].control.lock.value.acquiredAt + LOCK_STALE_MS
    ensures Holds(b.states[j].control, owner)
    decreases j
  {
    hide Take;
    hide Inv;
    if i < j {
      LiveHolderKeepsLock(b, owner, i, j - 1);
      assert Take(b.states[j - 1], b.actions[j - 1]) == Some(b.states[j - 1 + 1]);
      LockStep(b.states[j - 1], b.actions[j - 1]);
      assert b.actions[j - 1] != Leave(owner);
    }
  }

  /** A start leaves its owner holding the lock exactly when the lock was free or more than three minutes old. */
  lemma StartTakes(s: System, owner: string)
    ensures Take(s, Start(owner)).Some? <==> owner !in s.runs && !Holds(s.control, owner)
    ensures Take(s, Start(owner)).Some? ==>
              var s' := Take(s, Start(owner)).value;
              if s.control.lock.None? || s.control.lock.value.acquiredAt < s.now - 180_000
              then s'.control == s.control.(lock := Some(Lock(s.now, owner))) && s'.runs == s.runs[owner := Locked]
              else s'.control == s.control && s'.runs == s.runs[owner := Gone]
  {
  }

  /** When a start succeeds for certain. */
  function FreeFrom(s: System): int {
    if s.control.lock.None? || s.control.lock.value.acquiredAt < s.now - 180_000 then s.now
    else s.control.lock.value.acquiredAt + 180_001
  }

  /**
   * No crash keeps the lock for good: after whatever steps, a new run that starts once the lock's time is
   * three minutes past holds it, and reads the checkpoints as they were left.
   */
  lemma LockFreesItself(b: Behaviour, owner: string) returns (b': Behaviour)
    requires Lawful(b) && owner !in Last(b).runs && !Holds(Last(b).control, owner)
    ensures Lawful(b') && b'.actions == b.actions + [Tick(FreeFrom(Last(b))), Start(owner)] && b.states <= b'.states
    ensures Holds(Last(b').control, owner) && Last(b').runs == Last(b).runs[owner := Locked]
    ensures Last(b').control.state == Last(b).control.state
    ensures var lock, now := Last(b).control.lock, Last(b).now;
            Last(b').now == if lock.None? || lock.value.acquiredAt < now - 180_000 then now else lock.value.acquiredAt + 180_001
  {
    hide Inv;
    var s := Last(b);
    var waited := s.(now := FreeFrom(s));
    ExtendLawful(b, Tick(FreeFrom(s)), waited);
    b' := Extend(b, Tick(FreeFrom(s)), waited);
    StartTakes(waited, owner);
    var taken := Take(waited, Start(owner)).value;
    ExtendLawful(b', Start(owner), taken);
    b' := Extend(b', Start(owner), taken);
  }

  /** A page, deferral or clamp by the holder is saved, and refreshes the lock. */
  lemma SaveRefreshes(s: System, a: Action)
    requires Inv(s) && (a.Clamp? || a.Page? || a.Defer?) && Take(s, a).Some? && Holds(s.control, a.owner)
    ensures var s', r := Take(s, a).value, s.runs[a.owner];
            && s'.control.lock == Some(Lock(s.now, a.owner)) && s'.now == s.now
            && s'.control.state == s.control.state[r.contract :=
                 if a.Clamp? then Checkpoint(r.health.oldest - 1, s.control.state[r.contract].deferAttempts)
                 else if a.Page? then Checkpoint(a.reached, 0)
                 else Checkpoint(s.control.state[r.contract].lastLedger, s.control.state[r.contract].deferAttempts + 1)]
            && (s'.runs[a.owner].Scanning? ==> s'.runs[a.owner].view == s'.control.state)
            && (s'.runs[a.owner].Leaving? ==> a.Defer? && r.contract == ValidationContract)
  {
    hide BehindIdentity;
    hide LawfulHead;
  }

  /**
   * When a scanning run may save: a page, of ledgers past its checkpoint and up to its head; a deferral; or, while
   * the next ledger is no longer kept, only the clamp. It may go on to the next contract whenever it needs no clamp.
   */
  lemma MaySave(s: System, owner: string, reached: nat)
    requires owner in s.runs && s.runs[owner].Scanning?
    ensures var r := s.runs[owner];
            var last := r.view[r.contract].lastLedger;
            && (Take(s, Clamp(owner)).Some? <==> last < r.head && last + 1 < r.health.oldest)
            && (Take(s, Action.Defer(owner)).Some? <==> last < r.head && last + 1 >= r.health.oldest)
            && (Take(s, Page(owner, reached)).Some? <==> last < reached <= r.head && last + 1 >= r.health.oldest)
            && (Take(s, Next(owner)).Some? <==> last >= r.head || last + 1 >= r.health.oldest)
  {
  }

  /** Nobody takes over from a holder within three minutes of its last save. */
  lemma {:induction false} SavedHolderKeepsLock(b: Behaviour, owner: string, i: nat, j: nat)
    requires Lawful(b) && i < j < |b.states| && Holds(b.states[i].control, owner)
    requires b.actions[i] in {Clamp(owner), Action.Defer(owner)} || (b.actions[i].Page? && b.actions[i].owner == owner)
    requires (forall k | i <= k < j :: b.actions[k] != Leave(owner)) && b.states[j].now <= b.states[i].now + 180_000
    ensures Holds(b.states[j].control, owner) && b.states[j].control.lock.value.acquiredAt >= b.states[i].now
    decreases j
  {
    hide Take;
    hide Inv;
    var k := j - 1;
    assert Take(b.states[k], b.actions[k]) == Some(b.states[k + 1]);
    assert b.actions[k] != Leave(owner);
    if k == i {
      AlwaysInv(b, i);
      SaveRefreshes(b.states[i], b.actions[i]);
    } else {
      LockStepTime(b.states[k], b.actions[k]);
      SavedHolderKeepsLock(b, owner, i, k);
      LockStep(b.states[k], b.actions[k]);
      TimeOnlyAdvances(b, i, k);
    }
  }

  lemma {:induction false} TimeOnlyAdvances(b: Behaviour, i: nat, j: nat)
    requires Lawful(b) && i <= j < |b.states|
    ensures b.states[i].now <= b.states[j].now
    decreases j
  {
    hide Take;
    hide Inv;
    if i < j {
      TimeOnlyAdvances(b, i, j - 1);
      assert Take(b.states[j - 1], b.actions[j - 1]) == Some(b.states[j - 1 + 1]);
      LockStepTime(b.states[j - 1], b.actions[j - 1]);
    }
  }

  /** The migration's fence row: 9999-12-31T00:00:00Z in milliseconds. */
  const COPY_FENCE := Lock(253_402_214_400_000, "copy-fence")

  /** Until the year 9999 no run takes the copy fence, so none moves a checkpoint past it. */
  lemma {:induction false} CopyFenceHolds(b: Behaviour, j: nat)
    requires Lawful(b) && j < |b.states| && b.states[0].control.lock == Some(COPY_FENCE) && b.states[0].runs == map[]
    requires b.states[j].now <= COPY_FENCE.acquiredAt
    ensures b.states[j].control == b.states[0].control && forall o | o in b.states[j].runs :: b.states[j].runs[o] == Gone
    ensures COPY_FENCE.owner !in b.states[j].runs
  {
    hide Inv;
    if j > 0 {
      assert Take(b.states[j - 1], b.actions[j - 1]) == Some(b.states[j - 1 + 1]);
      LockStepTime(b.states[j - 1], b.actions[j - 1]);
      CopyFenceHolds(b, j - 1);
    }
  }

  lemma LockStepTime(s: System, a: Action)
    requires Take(s, a).Some?
    ensures s.now <= Take(s, a).value.now
  {
  }

  // ---------------------------------------------------------------- skipping is earned

  ghost predicate Tracked(b: Behaviour, c: Contract) {
    |b.states| == |b.actions| + 1 && forall s | s in b.states :: c in s.control.state
  }

  /** The contract's checkpoint after i steps. */
  function At(b: Behaviour, c: Contract, i: nat): Checkpoint
    requires Tracked(b, c) && i < |b.states|
  {
    b.states[i].control.state[c]
  }

  predicate PageSaved(b: Behaviour, c: Contract, k: nat)
    requires Tracked(b, c) && k < |b.actions|
  {
    b.actions[k].Page? && At(b, c, k + 1) != At(b, c, k)
  }

  predicate DeferralSaved(b: Behaviour, c: Contract, k: nat)
    requires Tracked(b, c) && k < |b.actions|
  {
    b.actions[k].Defer? && At(b, c, k + 1) != At(b, c, k)
  }

  /** A clamp that took effect while the count was not zero. */
  predicate ClampCarries(b: Behaviour, c: Contract, k: nat)
    requires Tracked(b, c) && k < |b.actions|
  {
    b.actions[k].Clamp? && At(b, c, k + 1) != At(b, c, k) && At(b, c, k).deferAttempts > 0
  }

  /** Deferrals of a contract saved since its last page, clamps in between or not. */
  function SavedDeferrals(b: Behaviour, c: Contract, j: nat): nat
    requires Tracked(b, c) && j < |b.states|
  {
    if j == 0 then At(b, c, 0).deferAttempts
    else if PageSaved(b, c, j - 1) then 0
    else SavedDeferrals(b, c, j - 1) + if DeferralSaved(b, c, j - 1) then 1 else 0
  }

  /** Deferrals of a contract saved at the checkpoint where it now stands. */
  function DeferralsHere(b: Behaviour, c: Contract, j: nat): nat
    requires Tracked(b, c) && j < |b.states|
  {
    if j == 0 then At(b, c, 0).deferAttempts
    else if At(b, c, j).lastLedger != At(b, c, j - 1).lastLedger then 0
    else DeferralsHere(b, c, j - 1) + if DeferralSaved(b, c, j - 1) then 1 else 0
  }

  /** Some clamp since the last page carried a count over. */
  ghost predicate CountCarried(b: Behaviour, c: Contract, j: nat)
    requires Tracked(b, c) && j < |b.states|
  {
    exists k :: 0 <= k < j && ClampCarries(b, c, k) && forall m | k < m < j :: !PageSaved(b, c, m)
  }

  /** A save moves the ledger and restarts the count, adds a deferral, or clamps and keeps the count. */
  lemma CountStep(s: System, a: Action, c: Contract)
    requires Inv(s) && Take(s, a).Some?
    ensures c in Take(s, a).value.control.state
    ensures var was, now := s.control.state[c], Take(s, a).value.control.state[c];
            || now == was
            || (a.Page? && now.lastLedger > was.lastLedger && now.deferAttempts == 0)
            || (a.Defer? && now == Deferral(was))
            || (a.Clamp? && now.lastLedger > was.lastLedger && now.deferAttempts == was.deferAttempts)
  {
    hide BehindIdentity;
  }

  lemma AllTracked(b: Behaviour, c: Contract)
    requires Lawful(b)
    ensures Tracked(b, c)
  {
    hide Take;
    forall s | s in b.states ensures c in s.control.state {
      var k :| 0 <= k < |b.states| && b.states[k] == s;
      AlwaysInv(b, k);
    }
  }

  lemma CountStepAt(b: Behaviour, c: Contract, k: nat)
    requires Lawful(b) && Tracked(b, c) && k < |b.actions|
    ensures var a, was, now := b.actions[k], At(b, c, k), At(b, c, k + 1);
            || now == was
            || (a.Page? && now.lastLedger > was.lastLedger && now.deferAttempts == 0)
            || (a.Defer? && now == Deferral(was))
            || (a.Clamp? && now.lastLedger > was.lastLedger && now.deferAttempts == was.deferAttempts)
  {
    hide Take;
    hide Inv;
    AlwaysInv(b, k);
    assert Take(b.states[k], b.actions[k]) == Some(b.states[k + 1]);
    CountStep(b.states[k], b.actions[k], c);
  }

  /**
   * Whatever runs interleave, crash and clamp, the stored count is the number of deferrals saved since
   * the contract's last page: skipping is armed exactly from the fifth of them on.
   */
  lemma {:induction false} CountIsSavedDeferrals(b: Behaviour, c: Contract, j: nat)
    requires Lawful(b) && j < |b.states|
    ensures Tracked(b, c) && At(b, c, j).deferAttempts == SavedDeferrals(b, c, j)
  {
    hide Lawful;
    AllTracked(b, c);
    if j > 0 {
      CountIsSavedDeferrals(b, c, j - 1);
      CountStepAt(b, c, j - 1);
    }
  }

  /**
   * The count is the number of deferrals at the present checkpoint exactly when no clamp since the last
   * page was taken at a nonzero count; otherwise it is greater.
   */
  lemma {:induction false} CountIsDeferralsHere(b: Behaviour, c: Contract, j: nat)
    requires Lawful(b) && j < |b.states|
    ensures Tracked(b, c) && DeferralsHere(b, c, j) <= At(b, c, j).deferAttempts
    ensures At(b, c, j).deferAttempts == DeferralsHere(b, c, j) <==> !CountCarried(b, c, j)
  {
    hide Lawful;
    AllTracked(b, c);
    if j > 0 {
      CountIsDeferralsHere(b, c, j - 1);
      CountStepAt(b, c, j - 1);
      CarriedStep(b, c, j - 1);
    }
  }

  lemma CarriedStep(b: Behaviour, c: Contract, j: nat)
    requires Tracked(b, c) && j < |b.actions|
    ensures CountCarried(b, c, j + 1) <==> ClampCarries(b, c, j) || (CountCarried(b, c, j) && !PageSaved(b, c, j))
  {
    if CountCarried(b, c, j) && !PageSaved(b, c, j) {
      var k :| 0 <= k < j && ClampCarries(b, c, k) && forall m | k < m < j :: !PageSaved(b, c, m);
      assert forall m | k < m < j + 1 :: !PageSaved(b, c, m);
    }
    if CountCarried(b, c, j + 1) {
      var k :| 0 <= k < j + 1 && ClampCarries(b, c, k) && forall m | k < m < j + 1 :: !PageSaved(b, c, m);
      if k < j {
        assert !PageSaved(b, c, j);
      }
    }
  }

  // ---------------------------------------------------------------- a skip armed early

  function Last(b: Behaviour): System
    requires b.states != []
  {
    b.states[|b.states| - 1]
  }

  function Extend(b: Behaviour, a: Action, s: System): Behaviour {
    Behaviour(b.states + [s], b.actions + [a])
  }

  lemma ExtendLawful(b: Behaviour, a: Action, s: System)
    requires Lawful(b) && Take(Last(b), a) == Some(s)
    ensures Lawful(Extend(b, a, s))
  {
    hide Take;
    hide Inv;
    var e := Extend(b, a, s);
    forall i | 0 <= i < |e.actions| ensures Take(e.states[i], e.actions[i]) == Some(e.states[i + 1]) {
      if i < |b.actions| {
        assert Take(b.states[i], b.actions[i]) == Some(b.states[i + 1]);
      }
    }
  }

  /** All contracts at ledger 10, identity with a count of n, and no lock; earlier runs are gone. */
  predicate DeferredTimes(s: System, n: nat) {
    && s.control.lock == None && s.now == 0
    && (forall c: Contract :: c in s.control.state && s.control.state[c] == Checkpoint(10, if c.IdentityContract? then n else 0))
    && forall o | o in s.runs :: |o| < n
  }

  const EARLY := Health(20, 1)
  const LATE := Health(100, 50)

  /** A run takes the lock and reads the checkpoints. */
  lemma RunStarts(b: Behaviour, n: nat, o: string, health: Health) returns (b': Behaviour)
    requires Lawful(b) && DeferredTimes(Last(b), n) && |o| == n && health.oldest <= health.latest
    ensures Lawful(b') && b'.states[0] == b.states[0]
    ensures var s, s' := Last(b), Last(b');
            && s'.now == 0 && s'.control == Control(Some(Lock(0, o)), s.control.state)
            && s'.runs == s.runs[o := Scanning(health, s.control.state, IdentityContract, health.latest)]
  {
    hide Inv;
    var s := Last(b);
    assert o !in s.runs;
    var locked := System(Control(Some(Lock(0, o)), s.control.state), s.runs[o := Locked], 0);
    ExtendLawful(b, Start(o), locked);
    b' := Extend(b, Start(o), locked);
    var look := Look(o, health, true);
    var scanning := WithRun(locked, o, Scanning(health, s.control.state, IdentityContract, health.latest));
    ExtendLawful(b', look, scanning);
    b' := Extend(b', look, scanning);
  }

  /** One cron run that defers identity where it stands and leaves. */
  lemma DeferringRun(b: Behaviour, n: nat) returns (b': Behaviour)
    requires Lawful(b) && DeferredTimes(Last(b), n)
    ensures Lawful(b') && b'.states[0] == b.states[0] && DeferredTimes(Last(b'), n + 1)
  {
    hide Inv;
    var o := seq(n, i => 'r');
    b' := RunStarts(b, n, o, EARLY);
    var deferred := Take(Last(b'), Action.Defer(o)).value;
    ExtendLawful(b', Action.Defer(o), deferred);
    b' := Extend(b', Action.Defer(o), deferred);
    var left := Take(deferred, Leave(o)).value;
    ExtendLawful(b', Leave(o), left);
    b' := Extend(b', Leave(o), left);
  }

  lemma {:induction false} DeferringRuns(n: nat) returns (b: Behaviour)
    ensures Lawful(b) && DeferredTimes(b.states[0], 0) && DeferredTimes(Last(b), n)
  {
    if n == 0 {
      var ten := Checkpoint(10, 0);
      var tens := map[IdentityContract := ten, ReputationContract := ten, ValidationContract := ten];
      forall c: Contract ensures c in tens {
        assert c.IdentityContract? || c.ReputationContract? || c.ValidationContract?;
      }
      b := Behaviour([System(Control(None, tens), map[], 0)], []);
    } else {
      b := DeferringRuns(n - 1);
      b := DeferringRun(b, n - 1);
    }
  }

  /**
   * Skipping can be armed at a checkpoint where nothing was ever deferred: five runs defer at ledger 10,
   * then a run that may clamp moves past the ledgers that aged out and takes the count along.
   */
  lemma SkipArmedByClamp() returns (b: Behaviour)
    ensures Lawful(b) && Tracked(b, IdentityContract)
    ensures At(b, IdentityContract, 0).deferAttempts == 0
    ensures At(b, IdentityContract, |b.actions|).deferAttempts == 5
    ensures DeferralsHere(b, IdentityContract, |b.actions|) == 0
  {
    hide Inv;
    b := DeferringRuns(5);
    b := RunStarts(b, 5, "clamp", LATE);
    var clamped := Take(Last(b), Clamp("clamp")).value;
    ExtendLawful(b, Clamp("clamp"), clamped);
    b := Extend(b, Clamp("clamp"), clamped);
    AllTracked(b, IdentityContract);
  }
}
