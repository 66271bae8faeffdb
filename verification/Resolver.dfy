// The resolver of agent URIs: tries recorded before each fetch, writes guarded by the URI fetched.
module Resolver {
  import opened Basics
  import opened Events
  import opened Tables
  import opened Store

  const MAX_ATTEMPTS := 5
  const CONCURRENCY := 5
  const MINUTE_MS := 60_000

  /** An agent as the resolver selected it. */
  datatype Pending = Pending(id: nat, uri: string, attempts: nat)

  function Backoff(attempts: nat): (ms: nat)
    ensures ms >= MINUTE_MS
  {
    if attempts == 0 then MINUTE_MS else 2 * Backoff(attempts - 1)
  }

  /** The WHERE clause of the selection. */
  predicate Due(row: AgentRow, now: int) {
    var r := row.resolver;
    && r.pending && r.document.None? && row.uri != "" && r.attempts < MAX_ATTEMPTS
    && (r.attempts == 0 || r.lastAttempt.None? || now - r.lastAttempt.value >= Backoff(r.attempts))
  }

  predicate Named(db: Db, a: Pending) {
    a.id in db.agents && db.agents[a.id].uri == a.uri
  }

  function WithResolver(db: Db, id: nat, r: Resolver): Db
    requires id in db.agents
  {
    db.(agents := db.agents[id := db.agents[id].(resolver := r)])
  }

  /** The statement that records a try, before the fetch. */
  function Record(db: Db, a: Pending, at: int): Db {
    if !Named(db, a) then db
    else
      var n := a.attempts + 1;
      WithResolver(db, a.id, Resolver(db.agents[a.id].resolver.document, n, n < MAX_ATTEMPTS, Some(at)))
  }

  /** The statement that stores a document; nothing to store, or a URI that moved on, leaves the try recorded. */
  function StoreDocument(db: Db, a: Pending, document: Option<string>): Db {
    if document.None? || !Named(db, a) then db
    else WithResolver(db, a.id, Resolver(document, 0, false, db.agents[a.id].resolver.lastAttempt))
  }

  // ---------------------------------------------------------------- any interleaving

  datatype Task = Selected(agent: Pending) | Recorded(agent: Pending) | Fetched(agent: Pending, document: Option<string>)

  /** The tables, the tries in flight, and every (URI, document) a fetch has returned. */
  datatype System = System(db: Db, tasks: map<nat, Task>, fetched: set<(string, string)>)

  datatype Action =
    | Index(p: Packet)
    | Select(task: nat, id: nat, now: int)
    | Begin(task: nat, at: int)
    | Fetch(task: nat, document: Option<string>)
    | Finish(task: nat)

  /** One step of the indexer or of any resolver, stale ones included. */
  function Take(s: System, a: Action): Option<System> {
    match a
    case Index(p) =>
      var r := Apply(s.db, p);
      Some(if r.Changed? then s.(db := r.db) else s)
    case Select(t, id, now) =>
      if t in s.tasks || id !in s.db.agents || !Due(s.db.agents[id], now) then None
      else Some(s.(tasks := s.tasks[t := Selected(Pending(id, s.db.agents[id].uri, s.db.agents[id].resolver.attempts))]))
    case Begin(t, at) =>
      if t !in s.tasks || !s.tasks[t].Selected? then None
      else Some(s.(db := Record(s.db, s.tasks[t].agent, at), tasks := s.tasks[t := Recorded(s.tasks[t].agent)]))
    case Fetch(t, document) =>
      if t !in s.tasks || !s.tasks[t].Recorded? then None
      else
        var agent := s.tasks[t].agent;
        Some(s.(tasks := s.tasks[t := Fetched(agent, document)],
                fetched := s.fetched + if document.Some? then {(agent.uri, document.value)} else {}))
    case Finish(t) =>
      if t !in s.tasks || !s.tasks[t].Fetched? then None
      else Some(s.(db := StoreDocument(s.db, s.tasks[t].agent, s.tasks[t].document), tasks := s.tasks - {t}))
  }

  /** Every stored document was fetched for the URI now on its row. */
  predicate DocumentsFit(db: Db, fetched: set<(string, string)>) {
    forall id :: id in db.agents && db.agents[id].resolver.document.Some? ==>
      (db.agents[id].uri, db.agents[id].resolver.document.value) in fetched
  }

  predicate Inv(s: System) {
    && DocumentsFit(s.db, s.fetched)
    && forall t :: t in s.tasks && s.tasks[t].Fetched? && s.tasks[t].document.Some? ==>
         (s.tasks[t].agent.uri, s.tasks[t].document.value) in s.fetched
  }

  /** No event leaves a document beside a new URI. */
  lemma IndexingKeepsDocumentsFit(db: Db, p: Packet, fetched: set<(string, string)>)
    requires DocumentsFit(db, fetched) && Apply(db, p).Changed?
    ensures DocumentsFit(Apply(db, p).db, fetched)
  {
    hide Apply;
    forall id | id in Apply(db, p).db.agents && Apply(db, p).db.agents[id].resolver.document.Some?
      ensures (Apply(db, p).db.agents[id].uri, Apply(db, p).db.agents[id].resolver.document.value) in fetched
    {
      VersionsAndResolver(db, p, id);
    }
  }

  lemma StepKeepsInv(s: System, a: Action)
    requires Inv(s) && Take(s, a).Some?
    ensures Inv(Take(s, a).value)
  {
    hide Apply;
    hide Due;
    if a.Index? && Apply(s.db, a.p).Changed? {
      IndexingKeepsDocumentsFit(s.db, a.p, s.fetched);
    }
  }

  function Run(s: System, actions: seq<Action>): System {
    if actions == [] then s
    else
      var before := Run(s, actions[..|actions| - 1]);
      GetOr(Take(before, actions[|actions| - 1]), before)
  }

  /** Over every interleaving of URI updates and resolver steps, a stored document fits its row. */
  lemma {:induction false} DocumentsAlwaysFit(s: System, actions: seq<Action>)
    requires Inv(s)
    ensures Inv(Run(s, actions))
  {
    hide Inv;
    hide Take;
    if actions != [] {
      var k := |actions| - 1;
      DocumentsAlwaysFit(s, actions[..k]);
      var before := Run(s, actions[..k]);
      if Take(before, actions[k]).Some? {
        StepKeepsInv(before, actions[k]);
      }
    }
  }

  // ---------------------------------------------------------------- under the lock

  /** Under the lock a try is one step: no other run comes between its selection and its write. */
  datatype Turn = Write(p: Packet) | Try(id: nat, selectedAt: int, triedAt: int, document: Option<string>)

  function TryOf(db: Db, id: nat, triedAt: int, document: Option<string>): Db
    requires id in db.agents
  {
    var a := Pending(id, db.agents[id].uri, db.agents[id].resolver.attempts);
    StoreDocument(Record(db, a, triedAt), a, document)
  }

  /** The tables with, for each agent, the times its present URI version was fetched. */
  datatype Log = Log(db: Db, tries: map<nat, seq<int>>)

  predicate SameVersion(before: Db, after: Db, id: nat) {
    id in before.agents && id in after.agents
    && after.agents[id].uri == before.agents[id].uri && after.agents[id].uriLedger == before.agents[id].uriLedger
  }

  function TriesOf(l: Log, id: nat): seq<int> {
    if id in l.tries then l.tries[id] else []
  }

  function TakeTurn(l: Log, t: Turn): Log {
    match t
    case Write(p) =>
      var r := Apply(l.db, p);
      if r.Violates? then l
      else Log(r.db, map id | id in l.tries && SameVersion(l.db, r.db, id) :: l.tries[id])
    case Try(id, selectedAt, triedAt, document) =>
      if id !in l.db.agents || !Due(l.db.agents[id], selectedAt) || triedAt < selectedAt then l
      else Log(TryOf(l.db, id, triedAt, document), l.tries[id := TriesOf(l, id) + [triedAt]])
  }

  /** Tries of one URI version: at most five, the next at least 2^k minutes after the k-th. */
  predicate WellSpaced(ts: seq<int>) {
    && |ts| <= MAX_ATTEMPTS
    && forall k :: 0 <= k < |ts| - 1 ==> ts[k + 1] - ts[k] >= Backoff(k + 1)
  }

  predicate Counted(row: AgentRow, ts: seq<int>) {
    var r := row.resolver;
    && WellSpaced(ts)
    && (r.document.None? ==>
          && r.attempts == |ts|
          && r.pending == (row.uri != "" && |ts| < MAX_ATTEMPTS)
          && (ts != [] ==> r.lastAttempt == Some(ts[|ts| - 1])))
  }

  predicate LogInv(l: Log) {
    forall id :: id in l.db.agents ==> Counted(l.db.agents[id], TriesOf(l, id))
  }

  lemma TryCounts(l: Log, id: nat, selectedAt: int, triedAt: int, document: Option<string>)
    requires LogInv(l) && id in l.db.agents && Due(l.db.agents[id], selectedAt) && selectedAt <= triedAt
    ensures LogInv(TakeTurn(l, Try(id, selectedAt, triedAt, document)))
  {
    var row, ts := l.db.agents[id], TriesOf(l, id);
    var l' := TakeTurn(l, Try(id, selectedAt, triedAt, document));
    assert Counted(row, ts);
    assert TriesOf(l', id) == ts + [triedAt];
    var ts' := ts + [triedAt];
    forall k | 0 <= k < |ts'| - 1 ensures ts'[k + 1] - ts'[k] >= Backoff(k + 1) {
      if k + 1 < |ts| {
        assert ts[k + 1] - ts[k] >= Backoff(k + 1);
      }
    }
    assert Counted(l'.db.agents[id], ts');
    forall i | i in l'.db.agents && i != id ensures Counted(l'.db.agents[i], TriesOf(l', i)) {
      assert TriesOf(l', i) == TriesOf(l, i);
    }
  }

  /** An event keeps an agent's URI version and its resolver columns together, or starts both afresh. */
  lemma VersionsAndResolver(db: Db, p: Packet, id: nat)
    requires Apply(db, p).Changed? && id in Apply(db, p).db.agents
    ensures var after := Apply(db, p).db;
            if SameVersion(db, after, id) then after.agents[id].resolver == db.agents[id].resolver
            else after.agents[id].resolver == FreshResolver(after.agents[id].uri)
  {
    hide Numbers;
    hide MaxOf;
    hide NullIfEmpty;
    hide WithoutAgent;
  }

  lemma TurnKeepsLog(l: Log, t: Turn)
    requires LogInv(l)
    ensures LogInv(TakeTurn(l, t))
  {
    hide Apply;
    hide Due;
    match t
    case Try(id, selectedAt, triedAt, document) =>
      if id in l.db.agents && Due(l.db.agents[id], selectedAt) && selectedAt <= triedAt {
        TryCounts(l, id, selectedAt, triedAt, document);
      }
    case Write(p) =>
      if Apply(l.db, p).Changed? {
        var l' := TakeTurn(l, t);
        forall id | id in l'.db.agents ensures Counted(l'.db.agents[id], TriesOf(l', id)) {
          VersionsAndResolver(l.db, p, id);
          if SameVersion(l.db, l'.db, id) {
            assert Counted(l.db.agents[id], TriesOf(l, id));
          }
        }
      }
  }

  function TakeTurns(l: Log, turns: seq<Turn>): Log {
    if turns == [] then l else TakeTurn(TakeTurns(l, turns[..|turns| - 1]), turns[|turns| - 1])
  }

  /** Under the lock every URI version is fetched at most five times, tries 2^attempts minutes apart. */
  lemma {:induction false} TriesAlwaysSpaced(l: Log, turns: seq<Turn>)
    requires LogInv(l)
    ensures LogInv(TakeTurns(l, turns))
    ensures forall id | id in TakeTurns(l, turns).db.agents ::
              var ts := TriesOf(TakeTurns(l, turns), id);
              |ts| <= 5 && forall k: nat | k + 1 < |ts| :: ts[k + 1] - ts[k] >= Backoff(k + 1)
  {
    hide LogInv;
    hide TakeTurn;
    if turns != [] {
      TriesAlwaysSpaced(l, turns[..|turns| - 1]);
      TurnKeepsLog(TakeTurns(l, turns[..|turns| - 1]), turns[|turns| - 1]);
    }
    SpacedNow(TakeTurns(l, turns));
  }

  lemma SpacedNow(l: Log)
    requires LogInv(l)
    ensures forall id | id in l.db.agents ::
              |TriesOf(l, id)| <= 5 && forall k: nat | k + 1 < |TriesOf(l, id)| :: TriesOf(l, id)[k + 1] - TriesOf(l, id)[k] >= Backoff(k + 1)
  {
    hide TriesOf;
    forall id | id in l.db.agents
      ensures |TriesOf(l, id)| <= 5 && forall k: nat | k + 1 < |TriesOf(l, id)| :: TriesOf(l, id)[k + 1] - TriesOf(l, id)[k] >= Backoff(k + 1)
    {
      assert Counted(l.db.agents[id], TriesOf(l, id));
    }
  }

  // ---------------------------------------------------------------- what a try leaves

  /** Minutes in milliseconds, doubled n times. */
  lemma {:induction false} BackoffDoubles(n: nat)
    ensures Backoff(0) == 60_000 && Backoff(n + 1) == 2 * Backoff(n)
    ensures Backoff(1) == 120_000 && Backoff(2) == 240_000 && Backoff(3) == 480_000 && Backoff(4) == 960_000
  {
    assert Backoff(2) == 2 * Backoff(1);
    assert Backoff(4) == 2 * Backoff(3);
  }

  /**
   * A try whose fetch returned a document for the URI still on the row leaves exactly that document, no
   * attempts and nothing pending; one that returned none counts, and the fifth such is the last. Nothing else moves.
   */
  lemma TryLeaves(db: Db, id: nat, triedAt: int, document: Option<string>)
    requires id in db.agents
    ensures var was, now := db.agents[id], TryOf(db, id, triedAt, document).agents[id];
            && (document.Some? ==> now.resolver == Resolver(document, 0, false, Some(triedAt)))
            && (document.None? ==> now.resolver == Resolver(was.resolver.document, was.resolver.attempts + 1,
                                                            was.resolver.attempts < 4, Some(triedAt)))
            && now == was.(resolver := now.resolver)
    ensures TryOf(db, id, triedAt, document) == db.(agents := db.agents[id := TryOf(db, id, triedAt, document).agents[id]])
  {
  }

  /** A fetch that returns after the URI moved on, or the agent's row is gone, stores nothing; otherwise its document is kept. */
  lemma FetchedIsStored(s: System, t: nat)
    requires t in s.tasks && s.tasks[t].Fetched?
    ensures Take(s, Finish(t)).Some?
    ensures var a, document, now := s.tasks[t].agent, s.tasks[t].document, Take(s, Finish(t)).value;
            && t !in now.tasks
            && if document.Some? && a.id in s.db.agents && s.db.agents[a.id].uri == a.uri
               then now.db == s.db.(agents := s.db.agents[a.id :=
                                s.db.agents[a.id].(resolver := now.db.agents[a.id].resolver)])
                    && now.db.agents[a.id].resolver.document == document && now.db.agents[a.id].resolver.attempts == 0
                    && !now.db.agents[a.id].resolver.pending
               else now.db == s.db
  {
  }

  /** Which agents are selected: pending, with a URI, no document, under five tries, and the last one long enough ago. */
  lemma DueExactly(row: AgentRow, now: int)
    ensures Due(row, now) <==>
              var r := row.resolver;
              && r.pending && r.document == None && row.uri != "" && r.attempts < 5
              && (r.attempts == 0 || r.lastAttempt == None
                  || now - r.lastAttempt.value >= [60_000, 120_000, 240_000, 480_000, 960_000][r.attempts])
  {
    BackoffDoubles(0);
  }

  /** Whatever agents are due may be what a selection returns. */
  lemma AnyDueSelected(db: Db, now: int, ids: seq<nat>)
    requires forall i | 0 <= i < |ids| :: ids[i] in db.agents && Due(db.agents[ids[i]], now)
    requires forall i, j | 0 <= i < j < |ids| :: ids[i] != ids[j]
    ensures Selection(db, seq(|ids|, i requires 0 <= i < |ids| && ids[i] in db.agents =>
                                       Pending(ids[i], db.agents[ids[i]].uri, db.agents[ids[i]].resolver.attempts)), now)
  {
    hide Due;
  }

  /** Tables as the events left them, no agent tried yet, are where both promises start. */
  lemma NothingTriedYet(db: Db)
    requires forall id | id in db.agents :: db.agents[id].resolver == FreshResolver(db.agents[id].uri)
    ensures Inv(System(db, map[], {})) && LogInv(Log(db, map[]))
  {
  }

  /** After a failed try the agent is due again 2^k minutes later, k the tries so far, until the fifth; a document ends it. */
  lemma DueAgain(db: Db, id: nat, triedAt: int, document: Option<string>, now: int)
    requires id in db.agents && db.agents[id].uri != "" && db.agents[id].resolver.document.None?
    ensures Due(TryOf(db, id, triedAt, document).agents[id], now) <==>
              && document.None? && db.agents[id].resolver.attempts < 4
              && now >= triedAt + Backoff(db.agents[id].resolver.attempts + 1)
  {
    hide Backoff;
  }

  /** An event that brings a new URI, or a new agent, makes the agent due at once exactly when the URI is not empty. */
  lemma DueWhenNew(db: Db, p: Packet, id: nat, now: int)
    requires Apply(db, p).Changed? && id in Apply(db, p).db.agents && !SameVersion(db, Apply(db, p).db, id)
    ensures Due(Apply(db, p).db.agents[id], now) <==> Apply(db, p).db.agents[id].uri != ""
  {
    hide Apply;
    VersionsAndResolver(db, p, id);
  }

  // ---------------------------------------------------------------- the rounds

  predicate Current(db: Db, a: Pending) {
    Named(db, a) && a.attempts == db.agents[a.id].resolver.attempts
  }

  predicate Snapshot(db: Db, agents: seq<Pending>) {
    && (forall i :: 0 <= i < |agents| ==> Current(db, agents[i]))
    && forall i, j :: 0 <= i < j < |agents| ==> agents[i].id != agents[j].id
  }

  /** What one selection returns: distinct agents, due, as their rows stand. */
  predicate Selection(db: Db, agents: seq<Pending>, now: int) {
    Snapshot(db, agents) && forall i :: 0 <= i < |agents| ==> Due(db.agents[agents[i].id], now)
  }

  predicate SameButAgents(db: Db, db': Db) {
    db' == db.(agents := db'.agents) && db'.agents.Keys == db.agents.Keys
  }

  /** Agent i's row when the first n are tried and the first m begun. */
  function Expected(first: Db, agents: seq<Pending>, n: nat, m: nat, at: nat -> int, fetch: nat -> Option<string>, i: nat): AgentRow
    requires i < |agents| && Current(first, agents[i])
  {
    var id := agents[i].id;
    TriesStay(first, id, agents[i], at(i / CONCURRENCY), fetch(i));
    if i < n then TryOf(first, id, at(i / CONCURRENCY), fetch(i)).agents[id]
    else if i < m then Record(first, agents[i], at(i / CONCURRENCY)).agents[id]
    else first.agents[id]
  }

  ghost predicate Progress(first: Db, now: Db, agents: seq<Pending>, n: nat, m: nat, at: nat -> int, fetch: nat -> Option<string>)
    requires n <= m <= |agents| && Snapshot(first, agents)
  {
    && SameButAgents(first, now)
    && (forall i | 0 <= i < |agents| :: now.agents[agents[i].id] == Expected(first, agents, n, m, at, fetch, i))
    && (forall id | id in first.agents && (forall i | 0 <= i < |agents| :: agents[i].id != id) :: now.agents[id] == first.agents[id])
  }

  predicate OnlyRow(db: Db, db': Db, id: nat) {
    SameButAgents(db, db') && forall i | i in db.agents && i != id :: db'.agents[i] == db.agents[i]
  }

  lemma RecordRow(first: Db, now: Db, a: Pending, at: int)
    requires Current(first, a) && SameButAgents(first, now) && now.agents[a.id] == first.agents[a.id]
    ensures OnlyRow(now, Record(now, a, at), a.id) && SameButAgents(first, Record(now, a, at))
    ensures SameButAgents(first, Record(first, a, at))
    ensures Record(now, a, at).agents[a.id] == Record(first, a, at).agents[a.id]
  {
  }

  lemma StoreRow(first: Db, now: Db, a: Pending, at: int, document: Option<string>)
    requires Current(first, a) && SameButAgents(first, now) && SameButAgents(first, Record(first, a, at))
    requires now.agents[a.id] == Record(first, a, at).agents[a.id]
    ensures Named(now, a)
    ensures OnlyRow(now, StoreDocument(now, a, document), a.id) && SameButAgents(first, StoreDocument(now, a, document))
    ensures SameButAgents(first, TryOf(first, a.id, at, document))
    ensures StoreDocument(now, a, document).agents[a.id] == TryOf(first, a.id, at, document).agents[a.id]
  {
  }

  lemma TriesStay(db: Db, id: nat, a: Pending, at: int, document: Option<string>)
    requires id in db.agents && Named(db, a)
    ensures SameButAgents(db, TryOf(db, id, at, document)) && SameButAgents(db, Record(db, a, at))
  {
  }

  lemma BeginExpected(first: Db, agents: seq<Pending>, n: nat, m: nat, at: nat -> int, fetch: nat -> Option<string>, i: nat)
    requires Snapshot(first, agents) && n <= m < |agents| && i < |agents|
    ensures agents[i].id in first.agents && (i != m ==> agents[i].id != agents[m].id)
    ensures SameButAgents(first, Record(first, agents[m], at(m / CONCURRENCY)))
    ensures Expected(first, agents, n, m + 1, at, fetch, i)
         == if i == m then Record(first, agents[m], at(m / CONCURRENCY)).agents[agents[m].id] else Expected(first, agents, n, m, at, fetch, i)
    ensures Expected(first, agents, n, m, at, fetch, m) == first.agents[agents[m].id]
  {
    hide Record;
    hide TryOf;
    TriesStay(first, agents[m].id, agents[m], at(m / CONCURRENCY), fetch(m));
  }

  lemma BeginOne(first: Db, now: Db, agents: seq<Pending>, n: nat, m: nat, at: nat -> int, fetch: nat -> Option<string>)
    requires Snapshot(first, agents) && n <= m < |agents| && Progress(first, now, agents, n, m, at, fetch)
    ensures Progress(first, Record(now, agents[m], at(m / CONCURRENCY)), agents, n, m + 1, at, fetch)
  {
    hide Record;
    hide TryOf;
    hide Expected;
    var a, now' := agents[m], Record(now, agents[m], at(m / CONCURRENCY));
    BeginExpected(first, agents, n, m, at, fetch, m);
    assert now.agents[a.id] == Expected(first, agents, n, m, at, fetch, m);
    RecordRow(first, now, a, at(m / CONCURRENCY));
    forall i | 0 <= i < |agents| ensures now'.agents[agents[i].id] == Expected(first, agents, n, m + 1, at, fetch, i) {
      BeginExpected(first, agents, n, m, at, fetch, i);
      assert now.agents[agents[i].id] == Expected(first, agents, n, m, at, fetch, i);
    }
  }

  lemma FinishRow(first: Db, now: Db, agents: seq<Pending>, n: nat, m: nat, at: nat -> int, fetch: nat -> Option<string>)
    requires Snapshot(first, agents) && n < m <= |agents| && Progress(first, now, agents, n, m, at, fetch)
    ensures Named(now, agents[n]) && SameButAgents(first, now)
    ensures var now' := StoreDocument(now, agents[n], fetch(n));
            && OnlyRow(now, now', agents[n].id) && SameButAgents(first, now')
            && now'.agents[agents[n].id] == Expected(first, agents, n + 1, m, at, fetch, n)
  {
    hide Record;
    hide StoreDocument;
    hide TryOf;
    var a := agents[n];
    assert Current(first, a);
    RecordRow(first, first, a, at(n / CONCURRENCY));
    assert now.agents[a.id] == Expected(first, agents, n, m, at, fetch, n);
    StoreRow(first, now, a, at(n / CONCURRENCY), fetch(n));
  }

  lemma ExpectedElsewhere(first: Db, agents: seq<Pending>, n: nat, m: nat, at: nat -> int, fetch: nat -> Option<string>, i: nat)
    requires Snapshot(first, agents) && n < m <= |agents| && i < |agents| && i != n
    ensures Expected(first, agents, n + 1, m, at, fetch, i) == Expected(first, agents, n, m, at, fetch, i)
    ensures agents[i].id != agents[n].id && agents[i].id in first.agents
  {
    hide Record;
    hide TryOf;
  }

  lemma FinishOne(first: Db, now: Db, agents: seq<Pending>, n: nat, m: nat, at: nat -> int, fetch: nat -> Option<string>)
    requires Snapshot(first, agents) && n < m <= |agents| && Progress(first, now, agents, n, m, at, fetch)
    ensures Named(now, agents[n])
    ensures Progress(first, StoreDocument(now, agents[n], fetch(n)), agents, n + 1, m, at, fetch)
  {
    hide StoreDocument;
    hide Expected;
    FinishRow(first, now, agents, n, m, at, fetch);
    var a, now' := agents[n], StoreDocument(now, agents[n], fetch(n));
    forall i | 0 <= i < |agents| ensures now'.agents[agents[i].id] == Expected(first, agents, n + 1, m, at, fetch, i) {
      if i != n {
        ExpectedElsewhere(first, agents, n, m, at, fetch, i);
        assert now.agents[agents[i].id] == Expected(first, agents, n, m, at, fetch, i);
      }
    }
  }

  /** How many of the first n tries kept a document, and how many were an agent's last. */
  function Kept(n: nat, fetch: nat -> Option<string>): nat {
    if n == 0 then 0 else Kept(n - 1, fetch) + if fetch(n - 1).Some? then 1 else 0
  }

  function Exhausted(agents: seq<Pending>, n: nat, fetch: nat -> Option<string>): nat
    requires n <= |agents|
  {
    if n == 0 then 0
    else Exhausted(agents, n - 1, fetch) + if fetch(n - 1).None? && agents[n - 1].attempts + 1 >= MAX_ATTEMPTS then 1 else 0
  }

  datatype ResolveResult = ResolveResult(checked: nat, resolved: nat, failed: nat, exhausted: nat)

  /** One batch records the tries of a round. */
  method BeginRound(db: Database, agents: seq<Pending>, offset: nat, end: nat, at: nat -> int,
                    ghost first: Db, ghost fetch: nat -> Option<string>)
    requires Snapshot(first, agents) && offset <= end <= |agents| && end <= offset + CONCURRENCY && offset % CONCURRENCY == 0
    requires Progress(first, db.tables, agents, offset, offset, at, fetch)
    modifies db`tables
    ensures Progress(first, db.tables, agents, offset, end, at, fetch)
  {
    hide Progress;
    hide Record;
    hide Snapshot;
    var triedAt := at(offset / CONCURRENCY);
    var i := offset;
    while i < end
      invariant offset <= i <= end
      invariant Progress(first, db.tables, agents, offset, i, at, fetch)
    {
      assert i / CONCURRENCY == offset / CONCURRENCY;
      BeginOne(first, db.tables, agents, offset, i, at, fetch);
      db.tables := Record(db.tables, agents[i], triedAt);
      i := i + 1;
    }
  }

  /** The counters after n tries. */
  predicate Tallied(r: ResolveResult, agents: seq<Pending>, n: nat, fetch: nat -> Option<string>)
    requires n <= |agents|
  {
    r.checked == n && r.resolved == Kept(n, fetch) && r.resolved + r.failed == n && r.exhausted == Exhausted(agents, n, fetch)
  }

  /** The documents of a round are stored one by one. */
  method FinishRound(db: Database, agents: seq<Pending>, offset: nat, end: nat, fetch: nat -> Option<string>, before: ResolveResult,
                     ghost first: Db, ghost at: nat -> int)
    returns (r: ResolveResult)
    requires Snapshot(first, agents) && offset <= end <= |agents|
    requires Progress(first, db.tables, agents, offset, end, at, fetch) && Tallied(before, agents, offset, fetch)
    modifies db`tables
    ensures Progress(first, db.tables, agents, end, end, at, fetch) && Tallied(r, agents, end, fetch)
  {
    hide Progress;
    hide StoreDocument;
    hide Snapshot;
    r := before;
    var i := offset;
    while i < end
      invariant offset <= i <= end
      invariant Progress(first, db.tables, agents, i, end, at, fetch) && Tallied(r, agents, i, fetch)
    {
      FinishOne(first, db.tables, agents, i, end, at, fetch);
      var document := fetch(i);
      var stored := document.Some? && Named(db.tables, agents[i]);
      db.tables := StoreDocument(db.tables, agents[i], document);
      if stored {
        r := r.(checked := i + 1, resolved := r.resolved + 1);
      } else {
        r := r.(checked := i + 1, failed := r.failed + 1,
                exhausted := r.exhausted + if agents[i].attempts + 1 >= MAX_ATTEMPTS then 1 else 0);
      }
      i := i + 1;
    }
  }

  /**
   * Rounds of CONCURRENCY: all tries of a round recorded, all fetched, then stored one by one. The
   * outcome is that of each agent tried on its own, and agents past the deadline are untouched. A
   * document that could not be stored counts as none; a round whose tries could not be recorded throws,
   * and leaves the rounds before it.
   */
  method ResolvePending(db: Database, agents: seq<Pending>, selectedAt: int, late: nat -> bool, at: nat -> int,
                        fetch: nat -> Option<string>, fault: nat -> bool)
    returns (r: Option<ResolveResult>, ghost done: nat)
    requires Selection(db.tables, agents, selectedAt)
    modifies db`tables
    ensures done <= |agents| && Progress(old(db.tables), db.tables, agents, done, done, at, fetch)
    ensures r.Some? ==>
              && r.value.checked == done && r.value.resolved == Kept(done, fetch) && r.value.failed == done - r.value.resolved
              && r.value.exhausted == Exhausted(agents, done, fetch)
    ensures r.Some? && done < |agents| ==> done % 5 == 0 && late(done / 5)
    ensures r.None? ==> done < |agents| && done % 5 == 0 && fault(done / 5)
  {
    hide Progress;
    hide Tallied;
    hide Snapshot;
    var result := ResolveResult(0, 0, 0, 0);
    ghost var first := db.tables;
    NothingBegun(first, agents, at, fetch);
    NothingTallied(agents, fetch);
    var offset: nat := 0;
    while offset < |agents| && !late(offset / CONCURRENCY)
      invariant offset % CONCURRENCY == 0
      invariant Progress(first, db.tables, agents, Min(offset, |agents|), Min(offset, |agents|), at, fetch)
      invariant Tallied(result, agents, Min(offset, |agents|), fetch)
      decreases |agents| - offset
    {
      if fault(offset / CONCURRENCY) {
        return None, offset;
      }
      var end := Min(offset + CONCURRENCY, |agents|);
      BeginRound(db, agents, offset, end, at, first, fetch);
      result := FinishRound(db, agents, offset, end, fetch, result, first, at);
      offset := offset + CONCURRENCY;
    }
    CheckedAll(result, agents, Min(offset, |agents|), fetch);
    return Some(result), Min(offset, |agents|);
  }

  lemma CheckedAll(r: ResolveResult, agents: seq<Pending>, n: nat, fetch: nat -> Option<string>)
    requires n <= |agents| && Tallied(r, agents, n, fetch)
    ensures r.checked == n && r.resolved == Kept(n, fetch) && r.failed == n - r.resolved && r.exhausted == Exhausted(agents, n, fetch)
  {
  }

  lemma NothingTallied(agents: seq<Pending>, fetch: nat -> Option<string>)
    ensures Tallied(ResolveResult(0, 0, 0, 0), agents, 0, fetch)
  {
  }

  lemma NothingBegun(first: Db, agents: seq<Pending>, at: nat -> int, fetch: nat -> Option<string>)
    requires Snapshot(first, agents)
    ensures Progress(first, first, agents, 0, 0, at, fetch)
  {
  }
}
