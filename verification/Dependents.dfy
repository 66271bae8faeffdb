// Feedback and validations: their tables follow the other two registries behind the identity scan.
module Dependents {
  import opened Events
  import opened Tables
  import opened Projection
  import Reputation
  import Validation

  // ---------------------------------------------------------------- one reputation call

  lemma NumbersAfterInsert(responses: map<nat, ResponseRow>, e: nat, row: ResponseRow, k: FeedbackKey, n: nat)
    requires e !in responses
    ensures n in Numbers(responses[e := row], k) <==> n in Numbers(responses, k) || (k == row.key && n == row.number)
  {
    var after := responses[e := row];
    if n in Numbers(responses, k) {
      var f :| f in responses && responses[f].key == k && responses[f].number == n;
      assert f in after && after[f] == responses[f];
    }
    if k == row.key && n == row.number {
      assert e in after && after[e].key == k && after[e].number == n;
    }
    if n in Numbers(after, k) {
      var f :| f in after && after[f].key == k && after[f].number == n;
      assert f != e ==> f in responses && responses[f] == after[f];
    }
  }

  lemma GiveMatches(db: Db, s: Reputation.State, p: Packet, call: Reputation.Call, self: bool)
    requires RepMatch(db, s, p.id) && Reputation.Inv(s)
    requires call.GiveFeedback? && Reputation.Exec(s, call, true, self).Done? && call.agentId in db.agents
    requires p.data == Reputation.Exec(s, call, true, self).emitted[0]
    ensures Apply(db, p).Changed? && RepMatch(Apply(db, p).db, Reputation.Exec(s, call, true, self).state, p.id + 1)
  {
    hide Reputation.ClientsIndexed;
    hide Numbers;
    hide MaxOf;
    var s' := Reputation.Exec(s, call, true, self).state;
    var key := (call.agentId, call.caller, Reputation.LastIndex(s, call.agentId, call.caller) + 1);
    assert key !in s.feedback;
    assert forall k: FeedbackKey :: Reputation.ResponseCount(s', k) == Reputation.ResponseCount(s, k);
  }

  lemma RevokeMatches(db: Db, s: Reputation.State, p: Packet, call: Reputation.Call)
    requires RepMatch(db, s, p.id)
    requires call.RevokeFeedback? && Reputation.Exec(s, call, true, false).Done?
    requires p.data == Reputation.Exec(s, call, true, false).emitted[0]
    ensures Apply(db, p).Changed? && RepMatch(Apply(db, p).db, Reputation.Exec(s, call, true, false).state, p.id + 1)
  {
    hide Numbers;
    hide MaxOf;
    var s' := Reputation.Exec(s, call, true, false).state;
    var key := (call.agentId, call.caller, call.index);
    assert FeedbackMatches(db.feedback[key], s.feedback[key]);
    assert forall k: FeedbackKey :: Reputation.ResponseCount(s', k) == Reputation.ResponseCount(s, k);
  }

  /** A response gets the next number: MAX + 1 is the count plus one. */
  lemma AppendMatches(db: Db, s: Reputation.State, p: Packet, call: Reputation.Call)
    requires RepMatch(db, s, p.id)
    requires call.AppendResponse? && Reputation.Exec(s, call, true, false).Done?
    requires p.data == Reputation.Exec(s, call, true, false).emitted[0]
    ensures Apply(db, p).Changed? && RepMatch(Apply(db, p).db, Reputation.Exec(s, call, true, false).state, p.id + 1)
  {
    hide Numbers;
    hide Apply;
    hide FeedbackMatches;
    var s' := Reputation.Exec(s, call, true, false).state;
    var key := (call.agentId, call.client, call.index);
    AppendStatement(db, s, p, call);
    var db' := Apply(db, p).db;
    var row := db'.responses[p.id];
    forall k: FeedbackKey, n: nat
      ensures n in Numbers(db'.responses, k) <==> 1 <= n <= Reputation.ResponseCount(s', k)
    {
      NumbersAfterInsert(db.responses, p.id, row, k, n);
    }
    forall e, f | e in db'.responses && f in db'.responses && e != f && db'.responses[e].key == db'.responses[f].key
      ensures db'.responses[e].number != db'.responses[f].number
    {
      NumberUsed(db.responses, e);
      NumberUsed(db.responses, f);
    }
  }

  lemma AppendStatement(db: Db, s: Reputation.State, p: Packet, call: Reputation.Call)
    requires RepMatch(db, s, p.id)
    requires call.AppendResponse? && Reputation.Exec(s, call, true, false).Done?
    requires p.data == Reputation.Exec(s, call, true, false).emitted[0]
    ensures var key := (call.agentId, call.client, call.index);
            && p.id !in db.responses && key in s.feedback
            && Apply(db, p) == Changed(db.(responses := db.responses[p.id := ResponseRow(
                 key, Reputation.ResponseCount(s, key) + 1, call.caller, NullIfEmpty(call.uri))]), 1)
  {
    hide Numbers;
    hide FeedbackMatches;
    var key := (call.agentId, call.client, call.index);
    var count := Reputation.ResponseCount(s, key);
    assert MaxOf(Numbers(db.responses, key)) == count by {
      assert count > 0 ==> count in Numbers(db.responses, key);
    }
  }

  lemma NumberUsed(responses: map<nat, ResponseRow>, e: nat)
    ensures e in responses ==> responses[e].number in Numbers(responses, responses[e].key)
  {
  }

  predicate SameIdentity(db: Db, db': Db) {
    db'.agents == db.agents && db'.metadata == db.metadata
  }

  /** One successful reputation call: its one event brings feedback and responses along. */
  lemma ReputationCallApplied(db: Db, s: Reputation.State, call: Reputation.Call, known: bool, self: bool, p: Packet)
    requires RepMatch(db, s, p.id) && Reputation.Inv(s)
    requires Reputation.Exec(s, call, known, self).Done? && (known ==> call.agentId in db.agents)
    requires p.data == Reputation.Exec(s, call, known, self).emitted[0]
    ensures Apply(db, p).Changed? && RepMatch(Apply(db, p).db, Reputation.Exec(s, call, known, self).state, p.id + 1)
    ensures SameIdentity(db, Apply(db, p).db) && Apply(db, p).db.validations == db.validations
    ensures IsDependentEvent(p.data)
  {
    hide RepMatch;
    hide Reputation.Inv;
    match call
    case GiveFeedback(_, _, _, _, _, _) => GiveMatches(db, s, p, call, self);
    case RevokeFeedback(_, _, _) => RevokeMatches(db, s, p, call);
    case AppendResponse(_, _, _, _, _) => AppendMatches(db, s, p, call);
  }

  // ---------------------------------------------------------------- one validation call

  lemma ValidationCallApplied(db: Db, s: Validation.State, bound: nat, call: Validation.Call, known: bool, allowed: bool, p: Packet)
    requires ValMatch(db, s, bound) && bound <= p.ledger
    requires Validation.Exec(s, call, known, allowed, p.ledger).Done?
    requires call.ValidationRequest? && known ==> call.agentId in db.agents
    requires p.data == Validation.Exec(s, call, known, allowed, p.ledger).emitted[0]
    ensures Apply(db, p).Changed?
    ensures ValMatch(Apply(db, p).db, Validation.Exec(s, call, known, allowed, p.ledger).state, p.ledger)
    ensures SameIdentity(db, Apply(db, p).db)
    ensures Apply(db, p).db.feedback == db.feedback && Apply(db, p).db.responses == db.responses
    ensures IsDependentEvent(p.data)
  {
    var db', s' := Apply(db, p).db, Validation.Exec(s, call, known, allowed, p.ledger).state;
    assert call.hash in s.validations ==> StatusMatches(db.validations[call.hash], s.validations[call.hash], bound);
    forall h | h in s'.validations ensures StatusMatches(db'.validations[h], s'.validations[h], p.ledger) {
      if h != call.hash {
        assert StatusMatches(db.validations[h], s.validations[h], bound);
      }
    }
  }
}
