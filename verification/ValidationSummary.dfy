// get_summary of the validation registry: the index walk against the whole map.
module ValidationSummary {
  import opened Basics
  import opened CountedIndex
  import opened Validation
  import opened Arithmetic
  import Summary

  datatype Average = Average(count: nat, response: nat)

  predicate Wanted(v: Status, validators: seq<Address>, tag: string) {
    v.hasResponse && (validators == [] || v.validator in validators) && (tag == "" || v.tag == tag)
  }

  /** The requests the summary is about, read off the whole map and no index. */
  function Matching(s: State, agentId: nat, validators: seq<Address>, tag: string): set<string> {
    set h | h in s.validations && s.validations[h].agentId == agentId && Wanted(s.validations[h], validators, tag)
  }

  /** The sum of their responses, in whatever order. */
  ghost function Responses(s: State, hs: set<string>): nat
    requires hs <= s.validations.Keys
  {
    if hs == {} then 0
    else
      var h :| h in hs;
      s.validations[h].response + Responses(s, hs - {h})
  }

  lemma {:induction false} AnyOrder(s: State, hs: set<string>, h: string)
    requires hs <= s.validations.Keys && h in hs
    ensures Responses(s, hs) == s.validations[h].response + Responses(s, hs - {h})
    decreases hs
  {
    var g :| g in hs && Responses(s, hs) == s.validations[g].response + Responses(s, hs - {g});
    if g != h {
      AnyOrder(s, hs - {g}, h);
      AnyOrder(s, hs - {h}, g);
      assert hs - {g} - {h} == hs - {h} - {g};
    }
  }

  /** The matching requests among the first n entries of the agent's list. */
  function Among(s: State, list: seq<string>, n: nat, validators: seq<Address>, tag: string): set<string>
    requires n <= |list|
  {
    set h | h in list[..n] && h in s.validations && Wanted(s.validations[h], validators, tag)
  }

  lemma AmongNext(s: State, list: seq<string>, n: nat, validators: seq<Address>, tag: string)
    requires n < |list| && list[n] in s.validations && forall i, j :: 0 <= i < j < |list| ==> list[i] != list[j]
    ensures var hs, h := Among(s, list, n, validators, tag), list[n];
            && h !in hs
            && Among(s, list, n + 1, validators, tag) == if Wanted(s.validations[h], validators, tag) then hs + {h} else hs
  {
    assert list[..n + 1] == list[..n] + [list[n]];
  }

  lemma AmongAll(s: State, agentId: nat, validators: seq<Address>, tag: string)
    requires Inv(s)
    ensures var list := List(s.agentIndex, agentId);
            Among(s, list, |list|, validators, tag) == Matching(s, agentId, validators, tag)
  {
    var list := List(s.agentIndex, agentId);
    assert list[..|list|] == list;
    forall h ensures h in list <==> h in s.validations && s.validations[h].agentId == agentId {
      RequestListedOnce(s, h);
    }
  }

  lemma ListFacts(s: State, agentId: nat)
    requires Inv(s)
    ensures var list := List(s.agentIndex, agentId);
            && |list| == Count(s.agentIndex, agentId) <= MAX_U32
            && (forall i, j :: 0 <= i < j < |list| ==> list[i] != list[j])
            && (forall i: nat | i < |list| :: (agentId, i) in s.agentIndex.at && s.agentIndex.at[(agentId, i)] == list[i]
                                              && list[i] in s.validations && s.validations[list[i]].response <= 100)
  {
    var list := List(s.agentIndex, agentId);
    RequestListedOnce(s, "");
    forall i: nat | i < |list| ensures list[i] in s.validations {
      RequestListedOnce(s, list[i]);
      assert list[i] in list;
    }
  }

  /** The inner search of the validator list. */
  method Named(validators: seq<Address>, validator: Address) returns (found: bool)
    ensures found <==> validator in validators
  {
    found := false;
    var i := 0;
    while i < |validators|
      invariant 0 <= i <= |validators| && validator !in validators[..i]
    {
      if validators[i] == validator {
        return true;
      }
      i := i + 1;
    }
  }

  lemma WithOne(s: State, hs: set<string>, h: string)
    requires hs <= s.validations.Keys && h in s.validations && h !in hs
    ensures Responses(s, hs + {h}) == Responses(s, hs) + s.validations[h].response
  {
    AnyOrder(s, hs + {h}, h);
    assert hs + {h} - {h} == hs;
  }

  /** The totals after n entries of the list; both stay inside u64. */
  ghost predicate Tallied(s: State, list: seq<string>, n: nat, validators: seq<Address>, tag: string, total: nat, matches: nat)
    requires n <= |list|
  {
    var hs := Among(s, list, n, validators, tag);
    matches == |hs| <= n && total == Responses(s, hs) <= 100 * matches
  }

  lemma TallyNext(s: State, list: seq<string>, n: nat, validators: seq<Address>, tag: string, total: nat, matches: nat)
    requires n < |list| && list[n] in s.validations && forall i, j :: 0 <= i < j < |list| ==> list[i] != list[j]
    requires Tallied(s, list, n, validators, tag, total, matches) && s.validations[list[n]].response <= 100
    ensures if Wanted(s.validations[list[n]], validators, tag)
            then Tallied(s, list, n + 1, validators, tag, total + s.validations[list[n]].response, matches + 1)
            else Tallied(s, list, n + 1, validators, tag, total, matches)
  {
    hide Responses;
    hide Wanted;
    AmongNext(s, list, n, validators, tag);
    if Wanted(s.validations[list[n]], validators, tag) {
      WithOne(s, Among(s, list, n, validators, tag), list[n]);
    }
  }

  lemma NothingTallied(s: State, list: seq<string>, validators: seq<Address>, tag: string)
    ensures Tallied(s, list, 0, validators, tag, 0, 0)
  {
    assert Among(s, list, 0, validators, tag) == {};
  }

  lemma TallyDone(s: State, agentId: nat, validators: seq<Address>, tag: string, total: nat, matches: nat)
    requires Inv(s)
    requires var list := List(s.agentIndex, agentId); Tallied(s, list, |list|, validators, tag, total, matches)
    ensures var hs := Matching(s, agentId, validators, tag);
            hs <= s.validations.Keys && matches == |hs| && total == Responses(s, hs) <= 100 * matches
  {
    hide Responses;
    AmongAll(s, agentId, validators, tag);
  }

  /** The totals after n entries of the agent's index. */
  ghost predicate Walked(s: State, agentId: nat, n: nat, validators: seq<Address>, tag: string, total: nat, matches: nat) {
    && Inv(s) && n <= |List(s.agentIndex, agentId)|
    && Tallied(s, List(s.agentIndex, agentId), n, validators, tag, total, matches)
  }

  lemma WalkOne(s: State, agentId: nat, n: nat, validators: seq<Address>, tag: string, total: nat, matches: nat)
    requires Walked(s, agentId, n, validators, tag, total, matches) && n < Count(s.agentIndex, agentId)
    ensures total <= 100 * matches && matches <= n < MAX_U32
    ensures (agentId, n) in s.agentIndex.at && s.agentIndex.at[(agentId, n)] in s.validations
    ensures var v := s.validations[s.agentIndex.at[(agentId, n)]];
            && v.response <= 100
            && if Wanted(v, validators, tag)
               then Walked(s, agentId, n + 1, validators, tag, total + v.response, matches + 1)
               else Walked(s, agentId, n + 1, validators, tag, total, matches)
  {
    hide Inv;
    hide Wanted;
    ListFacts(s, agentId);
    TallyNext(s, List(s.agentIndex, agentId), n, validators, tag, total, matches);
  }

  lemma WalkStart(s: State, agentId: nat, validators: seq<Address>, tag: string)
    requires Inv(s)
    ensures Walked(s, agentId, 0, validators, tag, 0, 0) && Count(s.agentIndex, agentId) <= MAX_U32
  {
    NothingTallied(s, List(s.agentIndex, agentId), validators, tag);
  }

  lemma WalkEnd(s: State, agentId: nat, validators: seq<Address>, tag: string, total: nat, matches: nat)
    requires Walked(s, agentId, Count(s.agentIndex, agentId), validators, tag, total, matches)
    ensures var hs := Matching(s, agentId, validators, tag);
            && hs <= s.validations.Keys && matches == |hs| && total == Responses(s, hs) <= 100 * matches
            && (hs == {} <==> matches == 0)
  {
    TallyDone(s, agentId, validators, tag, total, matches);
  }

  /**
   * The walk over the agent's index gives the average over the whole map, rounded down, never above
   * 100; no u64 addition overflows.
   */
  method GetSummary(s: State, agentId: nat, validators: seq<Address>, tag: string) returns (r: Average)
    requires Inv(s)
    ensures var hs := Matching(s, agentId, validators, tag);
            r == if hs == {} then Average(0, 0) else Average(|hs|, Quot(Responses(s, hs), |hs|))
    ensures r.response <= 100
  {
    hide Inv;
    hide Responses;
    hide Matching;
    hide Walked;
    hide Quot;
    var total: nat, matches: nat := 0, 0;
    var i := 0;
    WalkStart(s, agentId, validators, tag);
    while i < Count(s.agentIndex, agentId)
      invariant 0 <= i <= Count(s.agentIndex, agentId)
      invariant Walked(s, agentId, i, validators, tag, total, matches)
      invariant total <= 100 * i <= MAX_U64 && matches <= i <= MAX_U64
    {
      WalkOne(s, agentId, i, validators, tag, total, matches);
      if (agentId, i) in s.agentIndex.at && s.agentIndex.at[(agentId, i)] in s.validations {
        var hash := s.agentIndex.at[(agentId, i)];
        var status := s.validations[hash];
        var found := Named(validators, status.validator);
        if status.hasResponse && (validators == [] || found) && (tag == "" || status.tag == tag) {
          total := total + status.response;
          matches := matches + 1;
        }
      }
      i := i + 1;
    }
    WalkEnd(s, agentId, validators, tag, total, matches);
    if matches > 0 {
      AtMostHundred(total, matches);
      return Average(matches, Quot(total, matches));
    }
    return Average(0, 0);
  }

  lemma AtMostHundred(total: nat, n: nat)
    requires n > 0 && total <= 100 * n
    ensures Quot(total, n) <= 100
  {
    Summary.FloorBetween(total, n, 0, 100);
  }

  // ---------------------------------------------------------------- what a call changes in a summary

  /** A request, not answered yet, changes no summary. */
  lemma RequestUnseen(s: State, call: Call, agentExists: bool, authorised: bool, ledger: nat, agentId: nat, validators: seq<Address>,
                      tag: string)
    requires call.ValidationRequest? && Exec(s, call, agentExists, authorised, ledger).Done?
    ensures var s' := Exec(s, call, agentExists, authorised, ledger).state;
            var hs := Matching(s, agentId, validators, tag);
            && Matching(s', agentId, validators, tag) == hs && hs <= s'.validations.Keys
            && Responses(s', hs) == Responses(s, hs)
  {
    var s' := Exec(s, call, agentExists, authorised, ledger).state;
    hide Exec;
    SameResponses(s, s', Matching(s, agentId, validators, tag));
  }

  lemma {:induction false} SameResponses(s: State, s': State, hs: set<string>)
    requires hs <= s.validations.Keys && hs <= s'.validations.Keys
    requires forall h | h in hs :: s'.validations[h].response == s.validations[h].response
    ensures Responses(s', hs) == Responses(s, hs)
    decreases hs
  {
    if hs != {} {
      var h :| h in hs;
      SameResponses(s, s', hs - {h});
      AnyOrder(s, hs, h);
      AnyOrder(s', hs, h);
    }
  }

  /**
   * An answer is in the agent's summaries that ask for its validator and its new tag, whatever was asked
   * before, with its new value; in no others, and the other answers count as they did.
   */
  lemma AnswerCounts(s: State, call: Call, agentExists: bool, authorised: bool, ledger: nat, agentId: nat, validators: seq<Address>,
                     tag: string)
    requires call.ValidationResponse? && Exec(s, call, agentExists, authorised, ledger).Done?
    ensures call.hash in s.validations
    ensures var s', v := Exec(s, call, agentExists, authorised, ledger).state, s.validations[call.hash];
            var others := Matching(s, agentId, validators, tag) - {call.hash};
            var counts := agentId == v.agentId && (validators == [] || v.validator in validators) && (tag == "" || call.tag == tag);
            && others <= s'.validations.Keys
            && Matching(s', agentId, validators, tag) == (if counts then others + {call.hash} else others)
            && Responses(s', Matching(s', agentId, validators, tag)) == Responses(s, others) + if counts then call.response else 0
  {
    var s', v := Exec(s, call, agentExists, authorised, ledger).state, s.validations[call.hash];
    var others := Matching(s, agentId, validators, tag) - {call.hash};
    SameResponses(s, s', others);
    if call.hash in Matching(s', agentId, validators, tag) {
      WithOne(s', others, call.hash);
    }
  }
}
