// The reputation contract as it runs: keyed storage and counters changed in place.
module ReputationRegistry {
  import opened Basics
  import opened Events
  import opened CountedIndex
  import Reputation

  class Registry {
    var feedback: map<Reputation.FeedbackKey, Reputation.Feedback>
    var lastIndex: map<(nat, Address), nat>
    var clientCount: map<nat, nat>
    var clientAt: map<(nat, nat), Address>
    var clients: set<(nat, Address)>
    var responses: map<Reputation.FeedbackKey, nat>
    var emitted: seq<Event>

    constructor ()
      ensures Contents() == Reputation.GENESIS && emitted == []
    {
      feedback, lastIndex, clientCount, clientAt, clients, responses, emitted := map[], map[], map[], map[], {}, map[], [];
    }

    function Contents(): Reputation.State
      reads this
    {
      Reputation.State(feedback, lastIndex, Index(clientCount, clientAt), clients, responses)
    }

    predicate Ran(o: Reputation.Outcome, log: seq<Event>)
      reads this
    {
      o.Done? && Contents() == o.state && emitted == log + o.emitted
    }

    predicate Refused(o: Reputation.Outcome, e: Reputation.Error, s: Reputation.State, log: seq<Event>)
      reads this
    {
      o == Reputation.Failed(e) && Contents() == s && emitted == log
    }

    /** A call's error or panic: the host restores everything the call wrote. */
    method Restore(s: Reputation.State, log: seq<Event>)
      modifies this
      ensures Contents() == s && emitted == log
    {
      feedback, lastIndex, clients, responses, emitted := s.feedback, s.lastIndex, s.clients, s.responses, log;
      clientCount, clientAt := s.clientIndex.count, s.clientIndex.at;
    }

    method LastIndex(agentId: nat, client: Address) returns (i: nat)
      ensures i == Reputation.LastIndex(Contents(), agentId, client)
    {
      return if (agentId, client) in lastIndex then lastIndex[(agentId, client)] else 0;
    }

    /** Appends to the dense client list; false when its counter is exhausted. */
    method AddClient(agentId: nat, client: Address) returns (ok: bool)
      modifies this`clientCount, this`clientAt, this`clients
      ensures ok <==> Count(old(Contents()).clientIndex, agentId) < MAX_U32
      ensures Contents() == if ok then Reputation.AddClient(old(Contents()), agentId, client) else old(Contents())
    {
      var count := if agentId in clientCount then clientCount[agentId] else 0;
      if count >= MAX_U32 {
        return false;
      }
      clientAt := clientAt[(agentId, count) := client];
      clients := clients + {(agentId, client)};
      clientCount := clientCount[agentId := count + 1];
      return true;
    }

    method GiveFeedback(caller: Address, agentId: nat, value: int, decimals: nat, tag1: string, tag2: string,
                        agentExists: bool, self: bool)
      returns (r: Option<Reputation.Error>)
      modifies this
      ensures var o := Reputation.Exec(old(Contents()), Reputation.GiveFeedback(caller, agentId, value, decimals, tag1, tag2),
                                       agentExists, self);
              if r.None? then Ran(o, old(emitted)) else Refused(o, r.value, old(Contents()), old(emitted))
    {
      if decimals > 18 {
        return Some(Reputation.InvalidValueDecimals);
      }
      if !(-Reputation.MAX_ABS_VALUE <= value <= Reputation.MAX_ABS_VALUE) {
        return Some(Reputation.ValueOutOfRange);
      }
      if !agentExists {
        return Some(Reputation.AgentNotFound);
      }
      if self {
        return Some(Reputation.SelfFeedback);
      }
      var before, log := Contents(), emitted;
      if (agentId, caller) !in clients {
        var added := AddClient(agentId, caller);
        if !added {
          return Some(Reputation.AggregateOverflow);
        }
      }
      var last := LastIndex(agentId, caller);
      if last >= MAX_U64 {
        Restore(before, log);
        return Some(Reputation.Panic);
      }
      lastIndex := lastIndex[(agentId, caller) := last + 1];
      feedback := feedback[(agentId, caller, last + 1) := Reputation.Feedback(value, decimals, false, tag1, tag2)];
      emitted := emitted + [NewFeedback(agentId, caller, last + 1, value, decimals, tag1, tag2)];
      return None;
    }

    method RevokeFeedback(caller: Address, agentId: nat, index: nat, agentExists: bool, self: bool)
      returns (r: Option<Reputation.Error>)
      modifies this
      ensures var o := Reputation.Exec(old(Contents()), Reputation.RevokeFeedback(caller, agentId, index), agentExists, self);
              if r.None? then Ran(o, old(emitted)) else Refused(o, r.value, old(Contents()), old(emitted))
    {
      var key := (agentId, caller, index);
      if key !in feedback {
        return Some(Reputation.FeedbackNotFound);
      }
      var data := feedback[key];
      if data.revoked {
        return Some(Reputation.FeedbackNotFound);
      }
      feedback := feedback[key := data.(revoked := true)];
      emitted := emitted + [FeedbackRevoked(agentId, caller, index)];
      return None;
    }

    method AppendResponse(caller: Address, agentId: nat, client: Address, index: nat, uri: string, agentExists: bool, self: bool)
      returns (r: Option<Reputation.Error>)
      modifies this
      ensures var o := Reputation.Exec(old(Contents()), Reputation.AppendResponse(caller, agentId, client, index, uri),
                                       agentExists, self);
              if r.None? then Ran(o, old(emitted)) else Refused(o, r.value, old(Contents()), old(emitted))
    {
      if uri == "" {
        return Some(Reputation.EmptyValue);
      }
      var key := (agentId, client, index);
      if key !in feedback {
        return Some(Reputation.FeedbackNotFound);
      }
      var count := if key in responses then responses[key] else 0;
      if count >= MAX_U32 {
        return Some(Reputation.AggregateOverflow);
      }
      responses := responses[key := count + 1];
      emitted := emitted + [ResponseAppended(agentId, client, index, caller, uri)];
      return None;
    }

    /** The paginated read, on the present storage. */
    method GetClientsPaginated(agentId: nat, start: nat, limit: nat) returns (page: seq<Address>)
      requires Reputation.Inv(Contents())
      ensures page == Page(List(Contents().clientIndex, agentId), start, limit)
    {
      page := ReadPage(Index(clientCount, clientAt), agentId, start, limit);
    }
  }
}
