// One cron run: the lock around indexing and resolving, released however the run ends.
module Worker {
  import opened Basics
  import opened Events
  import opened Chain
  import opened Tables
  import opened Projection
  import opened Healing
  import opened Writer
  import opened Locks
  import opened Store
  import opened Scan
  import opened Indexer
  import Resolver

  datatype Report = Skipped | Failed | Completed(indexed: RunResult, resolved: Resolver.ResolveResult)

  /** Every contract has its checkpoint row. */
  predicate Recorded(state: map<Contract, Checkpoint>): (r: bool)
    ensures r <==> IdentityContract in state && ReputationContract in state && ValidationContract in state
  {
    assert forall c: Contract {:trigger c in state} :: c.IdentityContract? || c.ReputationContract? || c.ValidationContract?;
    forall c: Contract :: c in state
  }

  /** The tables but for resolver columns. */
  predicate SameButResolver(db: Db, db': Db) {
    && Resolver.SameButAgents(db, db')
    && forall id | id in db.agents :: db'.agents[id] == db.agents[id].(resolver := db'.agents[id].resolver)
  }

  lemma TryTouchesResolver(db: Db, id: nat, at: int, document: Option<string>)
    requires id in db.agents
    ensures SameButResolver(db, Resolver.TryOf(db, id, at, document))
  {
  }

  /** Resolving touches nothing but resolver columns. */
  lemma ResolvingTouchesResolver(first: Db, now: Db, agents: seq<Resolver.Pending>, n: nat, at: nat -> int, fetch: nat -> Option<string>)
    requires n <= |agents| && Resolver.Snapshot(first, agents) && Resolver.Progress(first, now, agents, n, n, at, fetch)
    ensures SameButResolver(first, now)
  {
    hide Resolver.TryOf;
    hide Resolver.Record;
    forall id | id in first.agents ensures now.agents[id] == first.agents[id].(resolver := now.agents[id].resolver) {
      if exists i :: 0 <= i < |agents| && agents[i].id == id {
        var i :| 0 <= i < |agents| && agents[i].id == id;
        TryTouchesResolver(first, id, at(i / Resolver.CONCURRENCY), fetch(i));
        assert now.agents[id] == Resolver.Expected(first, agents, n, n, at, fetch, i);
      }
    }
  }

  lemma SoundWithoutResolver(db: Db, db': Db, chain: History, state: map<Contract, Checkpoint>, upto: Progress)
    requires (forall c: Contract :: c in state) && Sound(db, chain, state, upto) && SameButResolver(db, db')
    ensures Sound(db', chain, state, upto)
  {
    hide Healable;
    HealableOverSameTables(db, db', chain, Reached(chain, state), upto);
  }

  lemma StillSoundWithoutResolver(db: Db, db': Db, chain: History, state: map<Contract, Checkpoint>)
    requires (forall c: Contract :: c in state) && StillSound(db, chain, state) && SameButResolver(db, db')
    ensures StillSound(db', chain, state)
  {
    hide Sound;
    var upto: Progress :| Sound(db, chain, state, upto);
    SoundWithoutResolver(db, db', chain, state, upto);
  }

  /** A finished run's promise holds for tables that differ from it in resolver columns only. */
  lemma PromiseWithoutResolver(db: Db, db': Db, w: Surroundings, chain: History, tables0: Db, letters0: Letters,
                               state0: map<Contract, Checkpoint>, upto0: Progress, contracts: map<Contract, ScanResult>, timedOut: bool,
                               letters: Letters, state: map<Contract, Checkpoint>)
    requires Chain.Ordered(chain) && (forall c: Contract :: c in state0 && c in state) && SameButResolver(db, db')
    requires RunPromise(w, chain, tables0, letters0, state0, upto0, contracts, timedOut, db, letters, state)
    ensures RunPromise(w, chain, tables0, letters0, state0, upto0, contracts, timedOut, db', letters, state)
    ensures upto0 == Reached(chain, state0) && Unclamped(state0, w.health.oldest) && Faithful(tables0, chain, state0) ==>
              Faithful(db', chain, state)
  {
    hide Sound;
    hide Faithful;
    hide Moved;
    hide RunExplained;
    hide DeferredIn;
    hide SameButResolver;
    ghost var lifted := Lift(upto0, Reached(chain, state));
    if Sound(db, chain, state, lifted) {
      SoundWithoutResolver(db, db', chain, state, lifted);
    }
    if upto0 == Reached(chain, state0) && Unclamped(state0, w.health.oldest) && Faithful(tables0, chain, state0) {
      PromiseKeepsFaithful(w, chain, tables0, letters0, state0, contracts, timedOut, db', letters, state);
    }
  }

  /** What every path of a run keeps of sound tables when it needs no clamp. */
  ghost predicate Unharmed(w: Surroundings, chain: History, tables0: Db, letters0: Letters, state0: map<Contract, Checkpoint>,
                           upto0: Progress, tables: Db, letters: Letters, state: map<Contract, Checkpoint>)
    requires forall c: Contract :: c in state0 && c in state
  {
    && Moved(w.health, state0, state) && letters0 <= letters
    && (Unclamped(state0, w.health.oldest) && Sound(tables0, chain, state0, upto0) ==>
          StillSound(tables, chain, state) && letters == letters0)
  }

  /** What a completed run promises beyond that. */
  ghost predicate Promised(w: Surroundings, chain: History, tables0: Db, letters0: Letters, state0: map<Contract, Checkpoint>,
                           upto0: Progress, r: Report, tables: Db, letters: Letters, state: map<Contract, Checkpoint>)
    requires forall c: Contract :: c in state0 && c in state
  {
    r.Completed? ==>
      && r.indexed.Ran?
      && RunPromise(w, chain, tables0, letters0, state0, upto0, r.indexed.contracts, r.indexed.timedOut, tables, letters, state)
      && (upto0 == Reached(chain, state0) && Unclamped(state0, w.health.oldest) && Faithful(tables0, chain, state0) ==>
            Faithful(tables, chain, state))
      && ((forall c: Contract :: Unhindered(w, state0, c)) && !DeferredIn(r.indexed.contracts) ==>
            !r.indexed.timedOut && forall c: Contract :: c in r.indexed.contracts && state[c].lastLedger >= w.health.latest)
  }

  lemma UnharmedWithoutResolver(w: Surroundings, chain: History, tables0: Db, letters0: Letters, state0: map<Contract, Checkpoint>,
                                upto0: Progress, db: Db, db': Db, letters: Letters, state: map<Contract, Checkpoint>)
    requires (forall c: Contract :: c in state0 && c in state) && SameButResolver(db, db')
    requires Unharmed(w, chain, tables0, letters0, state0, upto0, db, letters, state)
    ensures Unharmed(w, chain, tables0, letters0, state0, upto0, db', letters, state)
  {
    hide Sound;
    hide StillSound;
    hide Moved;
    hide SameButResolver;
    if StillSound(db, chain, state) {
      StillSoundWithoutResolver(db, db', chain, state);
    }
  }

  /** The indexing half of a run, put together. */
  lemma IndexedUnharmed(w: Surroundings, chain: History, tables0: Db, letters0: Letters, state0: map<Contract, Checkpoint>,
                        upto0: Progress, tables: Db, letters: Letters, state: map<Contract, Checkpoint>)
    requires forall c: Contract :: c in state0 && c in state
    requires Moved(w.health, state0, state) && letters0 <= letters
    requires Unclamped(state0, w.health.oldest) && Sound(tables0, chain, state0, upto0) ==>
               StillSound(tables, chain, state) && letters == letters0
    ensures Unharmed(w, chain, tables0, letters0, state0, upto0, tables, letters, state)
  {
    hide Sound;
    hide StillSound;
    hide Moved;
  }

  lemma UnharmedAtStart(w: Surroundings, chain: History, tables: Db, letters: Letters, state: map<Contract, Checkpoint>, upto: Progress)
    requires forall c: Contract :: c in state
    ensures Unharmed(w, chain, tables, letters, state, upto, tables, letters, state)
  {
    hide Sound;
    NothingMoved(w.health, state);
    KeptAtStart(chain, w.health, tables, state, upto);
  }

  /**
   * runOnce: skips without a trace when another run holds the lock; otherwise indexes, then resolves,
   * and releases its own lock on every path, a database error while resolving included. Unclamped, sound
   * tables stay sound on every path, and a completed run keeps everything indexing promised.
   */
  method RunOnce(db: Database, owner: string, now: int, connected: bool, w: Surroundings,
                 fault: Contract -> (nat, nat, nat) -> bool, allowClamp: bool,
                 select: Db -> seq<Resolver.Pending>, selectFails: bool, selectedAt: int, pastDeadline: nat -> bool, at: nat -> int,
                 fetch: nat -> Option<string>, resolveFault: nat -> bool, releaseFails: bool, ghost chain: History, ghost upto: Progress)
    returns (r: Report)
    requires Chain.Ordered(chain) && forall c: Contract :: Serves(w, chain, c)
    requires forall t: Db :: Resolver.Selection(t, select(t), selectedAt)
    requires !Holds(db.control, owner)
    modifies db
    ensures r.Skipped? <==> old(db.control.lock).Some? && old(db.control.lock).value.acquiredAt >= now - 180_000
    ensures r.Skipped? ==> db.tables == old(db.tables) && db.control == old(db.control) && db.letters == old(db.letters)
    ensures !r.Skipped? && !releaseFails ==> !Holds(db.control, owner)
    ensures Recorded(old(db.control.state)) ==> Recorded(db.control.state)
    ensures Recorded(old(db.control.state)) ==>
              && Unharmed(w, chain, old(db.tables), old(db.letters), old(db.control.state), upto, db.tables, db.letters, db.control.state)
              && Promised(w, chain, old(db.tables), old(db.letters), old(db.control.state), upto, r, db.tables, db.letters, db.control.state)
    ensures connected && !r.Skipped? && Recorded(old(db.control.state))
            && (allowClamp || Unclamped(old(db.control.state), w.health.oldest))
            && (forall c: Contract, n: nat, a: nat, b: nat :: !fault(c)(n, a, b))
            && !selectFails && (forall n: nat :: !resolveFault(n)) ==>
              r.Completed?
  {
    hide Sound;
    hide StillSound;
    hide Moved;
    hide Faithful;
    hide RunPromise;
    hide Unharmed;
    hide Unhindered;
    hide DeferredIn;
    hide Serves;
    hide SameButResolver;
    hide Resolver.Progress;
    hide Resolver.Tallied;
    ghost var tables0, letters0, state0 := db.tables, db.letters, db.control.state;
    if Recorded(state0) {
      UnharmedAtStart(w, chain, tables0, letters0, state0, upto);
    }
    var ours := db.AcquireLock(owner, now);
    if !ours {
      return Skipped;
    }
    if !connected {
      r := Failed;
    } else {
      var indexed := IndexContracts(db, w, fault, owner, allowClamp, chain, upto);
      if Recorded(state0) && !indexed.Refused? {
        IndexedUnharmed(w, chain, tables0, letters0, state0, upto, db.tables, db.letters, db.control.state);
      }
      if !indexed.Ran? || selectFails {
        r := Failed;
      } else {
        ghost var before := db.tables;
        var agents := select(db.tables);
        var resolved, done := Resolver.ResolvePending(db, agents, selectedAt, pastDeadline, at, fetch, resolveFault);
        ResolvingTouchesResolver(before, db.tables, agents, done, at, fetch);
        if Recorded(state0) {
          UnharmedWithoutResolver(w, chain, tables0, letters0, state0, upto, before, db.tables, db.letters, db.control.state);
          PromiseWithoutResolver(before, db.tables, w, chain, tables0, letters0, state0, upto, indexed.contracts, indexed.timedOut,
                                 db.letters, db.control.state);
        }
        r := if resolved.Some? then Completed(indexed, resolved.value) else Failed;
      }
    }
    if !releaseFails {
      db.ReleaseLock(owner);
    }
  }

  lemma NothingMoved(health: Health, state: map<Contract, Checkpoint>)
    requires forall c: Contract :: c in state
    ensures Moved(health, state, state)
  {
  }
}
