// Where what the registries hold came from: whose calls, and with what title to the agent at the time.
module Provenance {
  import opened Basics
  import opened Chain
  import CountedIndex
  import Identity
  import Reputation
  import Validation
  import opened Projection

  /** Call k gave this feedback: the client's call, while neither owner of the existing agent nor approved for it. */
  ghost predicate GaveIt(chain: History, k: nat, agentId: nat, client: Address, index: nat, f: Reputation.Feedback)
    requires k < |chain|
  {
    && chain[k].call.OnReputation? && !chain[k].call.approved
    && chain[k].call.repCall == Reputation.GiveFeedback(client, agentId, f.value, f.decimals, f.tag1, f.tag2)
    && agentId in WorldAt(chain, k).id.owners && WorldAt(chain, k).id.owners[agentId] != client
    && Reputation.LastIndex(WorldAt(chain, k).rep, agentId, client) + 1 == index
  }

  /** No owner's or approved caller's feedback on the agent is taken, and the world stays as it was. */
  lemma OwnFeedbackRefused(w: World, tx: Tx)
    requires tx.call.OnReputation? && tx.call.repCall.GiveFeedback?
    requires tx.call.repCall.agentId in w.id.owners ==>
               w.id.owners[tx.call.repCall.agentId] == tx.call.repCall.caller || tx.call.approved
    ensures Step(w, tx) == (w, [])
  {
  }

  /** One call leaves feedback as it is, but for its revocation. */
  lemma FeedbackStays(w: World, tx: Tx, key: Reputation.FeedbackKey)
    requires Reputation.Inv(w.rep) && key in w.rep.feedback
    ensures key in Step(w, tx).0.rep.feedback
    ensures Reputation.SameOrRevoked(w.rep.feedback[key], Step(w, tx).0.rep.feedback[key])
  {
  }

  /** Feedback that appears with a call was given by it. */
  lemma NewFeedbackGiven(chain: History, k: nat, agentId: nat, client: Address, index: nat)
    requires k < |chain| && (agentId, client, index) !in WorldAt(chain, k).rep.feedback
    requires (agentId, client, index) in WorldAt(chain, k + 1).rep.feedback
    ensures GaveIt(chain, k, agentId, client, index, WorldAt(chain, k + 1).rep.feedback[(agentId, client, index)])
  {
    hide CountedIndex.Add;
    assert WorldAt(chain, k + 1) == Step(WorldAt(chain, k), chain[k]).0;
  }

  /** Over every history, feedback was given by someone who was then neither owner of the agent nor approved. */
  lemma {:induction false} FeedbackHasGiver(chain: History, n: nat, agentId: nat, client: Address, index: nat) returns (k: nat)
    requires n <= |chain| && (agentId, client, index) in WorldAt(chain, n).rep.feedback
    ensures k < n && GaveIt(chain, k, agentId, client, index, WorldAt(chain, n).rep.feedback[(agentId, client, index)])
  {
    hide Step;
    hide Reputation.Inv;
    hide Reputation.LastIndex;
    k := n - 1;
    var key := (agentId, client, index);
    assert WorldAt(chain, n) == Step(WorldAt(chain, k), chain[k]).0;
    if key in WorldAt(chain, k).rep.feedback {
      WorldInv(chain, k);
      FeedbackStays(WorldAt(chain, k), chain[k], key);
      k := FeedbackHasGiver(chain, k, agentId, client, index);
    } else {
      NewFeedbackGiven(chain, k, agentId, client, index);
    }
  }

  /** Call k filed this request: its caller owned the agent or was approved for it. */
  ghost predicate FiledIt(chain: History, k: nat, hash: string, v: Validation.Status)
    requires k < |chain|
  {
    && chain[k].call.OnValidation? && chain[k].call.valCall.ValidationRequest?
    && var call, owners := chain[k].call.valCall, WorldAt(chain, k).id.owners;
       && call.hash == hash && call.validator == v.validator && call.agentId == v.agentId
       && v.agentId in owners && (owners[v.agentId] == call.caller || chain[k].call.approved)
  }

  /** Call k is the answer on record: the designated validator's, with this response, hash and tag. */
  ghost predicate AnsweredIt(chain: History, k: nat, hash: string, v: Validation.Status)
    requires k < |chain|
  {
    && chain[k].call.OnValidation? && chain[k].ledger == v.lastUpdate && v.response <= 100
    && chain[k].call.valCall == Validation.ValidationResponse(v.validator, hash, v.response, v.responseHash, v.tag)
  }

  /** Over every history a request was filed with title to its agent, and an answer on record is its validator's own. */
  lemma {:induction false} StatusHasAuthors(chain: History, n: nat, hash: string) returns (filed: nat, answered: nat)
    requires n <= |chain| && hash in WorldAt(chain, n).val.validations
    ensures filed < n && FiledIt(chain, filed, hash, WorldAt(chain, n).val.validations[hash])
    ensures WorldAt(chain, n).val.validations[hash].hasResponse ==>
              filed < answered < n && AnsweredIt(chain, answered, hash, WorldAt(chain, n).val.validations[hash])
  {
    var before, now := WorldAt(chain, n - 1).val.validations, WorldAt(chain, n).val.validations;
    if hash !in before {
      filed, answered := n - 1, n;
    } else {
      filed, answered := StatusHasAuthors(chain, n - 1, hash);
      if now[hash] != before[hash] {
        answered := n - 1;
      }
    }
  }
}
