// The validation contract as it runs: one status per request, two counted indexes, changed in place.
module ValidationRegistry {
  import opened Basics
  import opened Events
  import opened CountedIndex
  import Validation

  class Registry {
    var validations: map<string, Validation.Status>
    var agentCount: map<nat, nat>
    var agentAt: map<(nat, nat), string>
    var validatorCount: map<Address, nat>
    var validatorAt: map<(Address, nat), string>
    var emitted: seq<Event>

    constructor ()
      ensures Contents() == Validation.GENESIS && emitted == []
    {
      validations, agentCount, agentAt, validatorCount, validatorAt, emitted := map[], map[], map[], map[], map[], [];
    }

    function Contents(): Validation.State
      reads this
    {
      Validation.State(validations, Index(agentCount, agentAt), Index(validatorCount, validatorAt))
    }

    predicate Ran(o: Validation.Outcome, log: seq<Event>)
      reads this
    {
      o.Done? && Contents() == o.state && emitted == log + o.emitted
    }

    predicate Refused(o: Validation.Outcome, e: Validation.Error, s: Validation.State, log: seq<Event>)
      reads this
    {
      o == Validation.Failed(e) && Contents() == s && emitted == log
    }

    /** A call's error: the host restores everything the call wrote. */
    method Restore(s: Validation.State, log: seq<Event>)
      modifies this
      ensures Contents() == s && emitted == log
    {
      validations, emitted := s.validations, log;
      agentCount, agentAt := s.agentIndex.count, s.agentIndex.at;
      validatorCount, validatorAt := s.validatorIndex.count, s.validatorIndex.at;
    }

    method AddAgentValidation(agentId: nat, hash: string) returns (ok: bool)
      modifies this`agentCount, this`agentAt
      ensures ok <==> Count(old(Contents()).agentIndex, agentId) < MAX_U32
      ensures Contents().agentIndex == if ok then Add(old(Contents()).agentIndex, agentId, hash) else old(Contents()).agentIndex
    {
      var count := if agentId in agentCount then agentCount[agentId] else 0;
      if count >= MAX_U32 {
        return false;
      }
      agentAt := agentAt[(agentId, count) := hash];
      agentCount := agentCount[agentId := count + 1];
      return true;
    }

    method AddValidatorRequest(validator: Address, hash: string) returns (ok: bool)
      modifies this`validatorCount, this`validatorAt
      ensures ok <==> Count(old(Contents()).validatorIndex, validator) < MAX_U32
      ensures Contents().validatorIndex ==
              if ok then Add(old(Contents()).validatorIndex, validator, hash) else old(Contents()).validatorIndex
    {
      var count := if validator in validatorCount then validatorCount[validator] else 0;
      if count >= MAX_U32 {
        return false;
      }
      validatorAt := validatorAt[(validator, count) := hash];
      validatorCount := validatorCount[validator := count + 1];
      return true;
    }

    /** The status is stored before either index is extended: a full index undoes it. */
    method ValidationRequest(caller: Address, validator: Address, agentId: nat, uri: string, hash: string,
                             agentExists: bool, authorised: bool, ledger: nat)
      returns (r: Option<Validation.Error>)
      modifies this
      ensures var o := Validation.Exec(old(Contents()), Validation.ValidationRequest(caller, validator, agentId, uri, hash),
                                       agentExists, authorised, ledger);
              if r.None? then Ran(o, old(emitted)) else Refused(o, r.value, old(Contents()), old(emitted))
    {
      if !agentExists {
        return Some(Validation.AgentNotFound);
      }
      if !authorised {
        return Some(Validation.NotOwnerOrApproved);
      }
      if hash in validations {
        return Some(Validation.RequestAlreadyExists);
      }
      var before, log := Contents(), emitted;
      validations := validations[hash := Validation.Status(validator, agentId, 0, Validation.ZERO_HASH, "", ledger, false)];
      var listed := AddAgentValidation(agentId, hash);
      if !listed {
        Restore(before, log);
        return Some(Validation.CounterOverflow);
      }
      listed := AddValidatorRequest(validator, hash);
      if !listed {
        Restore(before, log);
        return Some(Validation.CounterOverflow);
      }
      emitted := emitted + [ValidationRequested(hash, agentId, validator, uri)];
      return None;
    }

    method ValidationResponse(caller: Address, hash: string, response: nat, responseHash: string, tag: string,
                              agentExists: bool, authorised: bool, ledger: nat)
      returns (r: Option<Validation.Error>)
      modifies this
      ensures var o := Validation.Exec(old(Contents()), Validation.ValidationResponse(caller, hash, response, responseHash, tag),
                                       agentExists, authorised, ledger);
              if r.None? then Ran(o, old(emitted)) else Refused(o, r.value, old(Contents()), old(emitted))
    {
      if response > 100 {
        return Some(Validation.InvalidResponse);
      }
      if hash !in validations {
        return Some(Validation.RequestNotFound);
      }
      var status := validations[hash];
      if caller != status.validator {
        return Some(Validation.NotDesignatedValidator);
      }
      status := status.(response := response, responseHash := responseHash, tag := tag, lastUpdate := ledger, hasResponse := true);
      validations := validations[hash := status];
      emitted := emitted + [ValidationResponded(hash, response, responseHash, tag)];
      return None;
    }

    /** Both paginated reads, on the present storage. */
    method GetAgentValidationsPaginated(agentId: nat, start: nat, limit: nat) returns (page: seq<string>)
      requires Validation.Inv(Contents())
      ensures page == Page(List(Contents().agentIndex, agentId), start, limit)
    {
      page := ReadPage(Index(agentCount, agentAt), agentId, start, limit);
    }

    method GetValidatorRequestsPaginated(validator: Address, start: nat, limit: nat) returns (page: seq<string>)
      requires Validation.Inv(Contents())
      ensures page == Page(List(Contents().validatorIndex, validator), start, limit)
    {
      page := ReadPage(Index(validatorCount, validatorAt), validator, start, limit);
    }
  }
}
