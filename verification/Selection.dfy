// What the calls of the reputation registry do to the feedback a summary is taken over.
module Selection {
  import opened Basics
  import opened Arithmetic
  import opened Reputation
  import opened Summary

  // ---------------------------------------------------------------- which feedback, from the stored entries

  /** The numbers of a client's feedback that is not revoked and has the tags asked for. */
  ghost function Countable(s: State, agentId: nat, client: Address, n: nat, tag1: string, tag2: string): set<nat> {
    set i: nat | 1 <= i <= n && (agentId, client, i) in s.feedback && !s.feedback[(agentId, client, i)].revoked
                 && (tag1 == "" || s.feedback[(agentId, client, i)].tag1 == tag1)
                 && (tag2 == "" || s.feedback[(agentId, client, i)].tag2 == tag2)
  }

  ghost predicate Has(s: State, agentId: nat, client: Address, n: nat, tag1: string, tag2: string, f: Feedback) {
    exists i :: i in Countable(s, agentId, client, n, tag1, tag2) && s.feedback[(agentId, client, i)] == f
  }

  lemma CountableNext(s: State, agentId: nat, client: Address, n: nat, tag1: string, tag2: string)
    requires n > 0
    ensures var fewer, key := Countable(s, agentId, client, n - 1, tag1, tag2), (agentId, client, n);
            && n !in fewer
            && Countable(s, agentId, client, n, tag1, tag2) ==
               if key in s.feedback && Wanted(s.feedback[key], tag1, tag2) then fewer + {n} else fewer
  {
  }

  lemma HasNext(s: State, agentId: nat, client: Address, n: nat, tag1: string, tag2: string, f: Feedback)
    requires n > 0
    ensures var key := (agentId, client, n);
            Has(s, agentId, client, n, tag1, tag2, f) <==>
              Has(s, agentId, client, n - 1, tag1, tag2, f)
              || (key in s.feedback && Wanted(s.feedback[key], tag1, tag2) && s.feedback[key] == f)
  {
    hide Countable;
    hide Wanted;
    CountableNext(s, agentId, client, n, tag1, tag2);
  }

  /** One client's entries in a summary are its countable feedback, each once. */
  lemma {:induction false} GivenIsCountable(s: State, agentId: nat, client: Address, n: nat, tag1: string, tag2: string)
    ensures |Given(s, agentId, client, n, tag1, tag2)| == |Countable(s, agentId, client, n, tag1, tag2)|
    ensures forall f :: f in Given(s, agentId, client, n, tag1, tag2) <==> Has(s, agentId, client, n, tag1, tag2, f)
  {
    if n > 0 {
      hide Countable;
      hide Has;
      hide Wanted;
      GivenIsCountable(s, agentId, client, n - 1, tag1, tag2);
      CountableNext(s, agentId, client, n, tag1, tag2);
      forall f ensures f in Given(s, agentId, client, n, tag1, tag2) <==> Has(s, agentId, client, n, tag1, tag2, f) {
        HasNext(s, agentId, client, n, tag1, tag2, f);
      }
    }
  }

  /** In every state a summary is over exactly the countable feedback of the clients listed. */
  lemma {:induction false} SelectedIsCountable(s: State, agentId: nat, clients: seq<Address>, tag1: string, tag2: string, f: Feedback)
    ensures f in Selected(s, agentId, clients, tag1, tag2) <==>
            exists c :: c in clients && Has(s, agentId, c, LastIndex(s, agentId, c), tag1, tag2, f)
  {
    hide Given;
    hide Has;
    if clients != [] {
      var k := |clients| - 1;
      SelectedIsCountable(s, agentId, clients[..k], tag1, tag2, f);
      GivenIsCountable(s, agentId, clients[k], LastIndex(s, agentId, clients[k]), tag1, tag2);
      assert forall c :: c in clients <==> c in clients[..k] || c == clients[k];
    }
  }

  // ---------------------------------------------------------------- what a call changes

  lemma {:induction false} GivenUntouched(s: State, s': State, agentId: nat, client: Address, n: nat, tag1: string, tag2: string)
    requires forall i: nat | i <= n :: Lookup(s'.feedback, (agentId, client, i)) == Lookup(s.feedback, (agentId, client, i))
    ensures Given(s', agentId, client, n, tag1, tag2) == Given(s, agentId, client, n, tag1, tag2)
  {
    if n > 0 {
      GivenUntouched(s, s', agentId, client, n - 1, tag1, tag2);
      assert Lookup(s'.feedback, (agentId, client, n)) == Lookup(s.feedback, (agentId, client, n));
    }
  }

  /** Feedback adds one entry, its own, where its client and tags are asked for, and none elsewhere. */
  lemma GiveAdds(s: State, call: Call, agentExists: bool, self: bool, agentId: nat, client: Address, tag1: string, tag2: string)
    requires Inv(s) && call.GiveFeedback? && Exec(s, call, agentExists, self).Done?
    ensures GivenBy(Exec(s, call, agentExists, self).state, agentId, client, tag1, tag2)
         == GivenBy(s, agentId, client, tag1, tag2)
          + if agentId == call.agentId && client == call.caller
               && (tag1 == "" || call.tag1 == tag1) && (tag2 == "" || call.tag2 == tag2)
            then [Feedback(call.value, call.decimals, false, call.tag1, call.tag2)] else []
  {
    hide ClientsIndexed;
    var s' := Exec(s, call, agentExists, self).state;
    var n := LastIndex(s, agentId, client);
    assert (call.agentId, call.caller, LastIndex(s, call.agentId, call.caller) + 1) !in s.feedback;
    GivenUntouched(s, s', agentId, client, n, tag1, tag2);
  }

  lemma {:induction false} GivenWithout(s: State, s': State, agentId: nat, client: Address, index: nat, n: nat, tag1: string, tag2: string)
    returns (before: seq<Feedback>, after: seq<Feedback>)
    requires 1 <= index <= n && (agentId, client, index) in s.feedback && !s.feedback[(agentId, client, index)].revoked
    requires s'.feedback == s.feedback[(agentId, client, index) := s.feedback[(agentId, client, index)].(revoked := true)]
    ensures var f := s.feedback[(agentId, client, index)];
            && Given(s, agentId, client, n, tag1, tag2) == before
               + (if (tag1 == "" || f.tag1 == tag1) && (tag2 == "" || f.tag2 == tag2) then [f] else []) + after
            && Given(s', agentId, client, n, tag1, tag2) == before + after
    decreases n
  {
    if n == index {
      before, after := Given(s, agentId, client, n - 1, tag1, tag2), [];
      GivenUntouched(s, s', agentId, client, n - 1, tag1, tag2);
    } else {
      before, after := GivenWithout(s, s', agentId, client, index, n - 1, tag1, tag2);
      after := after + if (agentId, client, n) in s.feedback && Wanted(s.feedback[(agentId, client, n)], tag1, tag2)
                       then [s.feedback[(agentId, client, n)]] else [];
    }
  }

  /** A revocation takes exactly the revoked entry out of its client's, and leaves every other client's alone. */
  lemma RevokeRemoves(s: State, call: Call, agentExists: bool, self: bool, agentId: nat, client: Address, tag1: string, tag2: string)
    returns (before: seq<Feedback>, after: seq<Feedback>)
    requires Inv(s) && call.RevokeFeedback? && Exec(s, call, agentExists, self).Done?
    ensures (call.agentId, call.caller, call.index) in s.feedback
    ensures var f := s.feedback[(call.agentId, call.caller, call.index)];
            && GivenBy(s, agentId, client, tag1, tag2) == before
               + (if agentId == call.agentId && client == call.caller
                     && (tag1 == "" || f.tag1 == tag1) && (tag2 == "" || f.tag2 == tag2) then [f] else []) + after
            && GivenBy(Exec(s, call, agentExists, self).state, agentId, client, tag1, tag2) == before + after
  {
    hide ClientsIndexed;
    hide Given;
    var s' := Exec(s, call, agentExists, self).state;
    var n := LastIndex(s, agentId, client);
    if agentId == call.agentId && client == call.caller {
      before, after := GivenWithout(s, s', agentId, client, call.index, n, tag1, tag2);
    } else {
      before, after := GivenBy(s, agentId, client, tag1, tag2), [];
      GivenUntouched(s, s', agentId, client, n, tag1, tag2);
    }
  }

  /** A response changes nothing a summary sees. */
  lemma AppendUnseen(s: State, call: Call, agentExists: bool, self: bool, agentId: nat, client: Address, tag1: string, tag2: string)
    requires call.AppendResponse? && Exec(s, call, agentExists, self).Done?
    ensures GivenBy(Exec(s, call, agentExists, self).state, agentId, client, tag1, tag2) == GivenBy(s, agentId, client, tag1, tag2)
  {
    GivenUntouched(s, Exec(s, call, agentExists, self).state, agentId, client, LastIndex(s, agentId, client), tag1, tag2);
  }

  // ---------------------------------------------------------------- over a list of clients

  /** How often a list names a client. */
  function Listings(clients: seq<Address>, c: Address): nat {
    if clients == [] then 0 else Listings(clients[..|clients| - 1], c) + if clients[|clients| - 1] == c then 1 else 0
  }

  function Copies(f: Feedback, n: nat): multiset<Feedback> {
    multiset{}[f := n]
  }

  lemma OneMoreCopy(f: Feedback, n: nat)
    ensures Copies(f, n + 1) == Copies(f, n) + multiset{f} && Copies(f, 0) == multiset{}
  {
  }

  /** Where every client's entries keep but for one client's, which lose one, so does the list's selection, per listing. */
  lemma {:induction false} SelectedLoses(s: State, s': State, agentId: nat, clients: seq<Address>, c: Address, f: Feedback,
                                         tag1: string, tag2: string)
    requires forall d: Address :: multiset(GivenBy(s, agentId, d, tag1, tag2))
                               == multiset(GivenBy(s', agentId, d, tag1, tag2)) + if d == c then multiset{f} else multiset{}
    ensures multiset(Selected(s, agentId, clients, tag1, tag2))
         == multiset(Selected(s', agentId, clients, tag1, tag2)) + Copies(f, Listings(clients, c))
  {
    hide GivenBy;
    hide Selected;
    hide Copies;
    if clients == [] {
      SelectedNone(s, agentId, clients, tag1, tag2);
      SelectedNone(s', agentId, clients, tag1, tag2);
      OneMoreCopy(f, 0);
    } else {
      var k := |clients| - 1;
      SelectedLoses(s, s', agentId, clients[..k], c, f, tag1, tag2);
      assert clients == clients[..k] + [clients[k]];
      SelectedAdds(s, agentId, clients[..k], clients[k], tag1, tag2);
      SelectedAdds(s', agentId, clients[..k], clients[k], tag1, tag2);
      OneMoreCopy(f, Listings(clients[..k], c));
    }
  }

  lemma {:induction false} SelectedKept(s: State, s': State, agentId: nat, clients: seq<Address>, tag1: string, tag2: string)
    requires forall d: Address :: GivenBy(s', agentId, d, tag1, tag2) == GivenBy(s, agentId, d, tag1, tag2)
    ensures Selected(s', agentId, clients, tag1, tag2) == Selected(s, agentId, clients, tag1, tag2)
  {
    hide GivenBy;
    hide Selected;
    if clients == [] {
      SelectedNone(s, agentId, clients, tag1, tag2);
      SelectedNone(s', agentId, clients, tag1, tag2);
    } else {
      var k := |clients| - 1;
      SelectedKept(s, s', agentId, clients[..k], tag1, tag2);
      assert clients == clients[..k] + [clients[k]];
      SelectedAdds(s, agentId, clients[..k], clients[k], tag1, tag2);
      SelectedAdds(s', agentId, clients[..k], clients[k], tag1, tag2);
    }
  }

  lemma Outer(before: seq<Feedback>, f: Feedback, after: seq<Feedback>)
    ensures multiset(before + [f] + after) == multiset(before + after) + multiset{f}
    ensures before + [] + after == before + after
  {
  }

  /**
   * A revocation takes the revoked feedback, where its tags are asked for, out of any list's selection once
   * per listing of its client, and nothing else; the count falls by as much.
   */
  lemma RevocationLeavesSummary(s: State, call: Call, agentExists: bool, self: bool, agentId: nat, clients: seq<Address>,
                                tag1: string, tag2: string)
    requires Inv(s) && call.RevokeFeedback? && Exec(s, call, agentExists, self).Done?
    ensures (call.agentId, call.caller, call.index) in s.feedback
    ensures var s', f := Exec(s, call, agentExists, self).state, s.feedback[(call.agentId, call.caller, call.index)];
            var was, now := Selected(s, agentId, clients, tag1, tag2), Selected(s', agentId, clients, tag1, tag2);
            if agentId == call.agentId && (tag1 == "" || f.tag1 == tag1) && (tag2 == "" || f.tag2 == tag2)
            then multiset(was) == multiset(now) + Copies(f, Listings(clients, call.caller))
                 && |was| == |now| + Listings(clients, call.caller)
            else now == was
  {
    hide Exec;
    hide Inv;
    hide Selected;
    hide GivenBy;
    var s' := Exec(s, call, agentExists, self).state;
    var _, _ := RevokeRemoves(s, call, agentExists, self, agentId, call.caller, tag1, tag2);
    var f := s.feedback[(call.agentId, call.caller, call.index)];
    var asked := agentId == call.agentId && (tag1 == "" || f.tag1 == tag1) && (tag2 == "" || f.tag2 == tag2);
    forall d: Address
      ensures !asked ==> GivenBy(s', agentId, d, tag1, tag2) == GivenBy(s, agentId, d, tag1, tag2)
      ensures asked ==> (multiset(GivenBy(s, agentId, d, tag1, tag2))
                      == multiset(GivenBy(s', agentId, d, tag1, tag2)) + if d == call.caller then multiset{f} else multiset{})
    {
      var before, after := RevokeRemoves(s, call, agentExists, self, agentId, d, tag1, tag2);
      Outer(before, f, after);
    }
    if asked {
      SelectedLoses(s, s', agentId, clients, call.caller, f, tag1, tag2);
      Sizes(Selected(s, agentId, clients, tag1, tag2), Selected(s', agentId, clients, tag1, tag2), f, Listings(clients, call.caller));
    } else {
      SelectedKept(s, s', agentId, clients, tag1, tag2);
    }
  }

  lemma Sizes(was: seq<Feedback>, now: seq<Feedback>, f: Feedback, n: nat)
    requires multiset(was) == multiset(now) + Copies(f, n)
    ensures |was| == |now| + n
  {
    assert |multiset(was)| == |was| && |multiset(now)| == |now|;
    CopiesSize(f, n);
  }

  lemma {:induction false} CopiesSize(f: Feedback, n: nat)
    ensures |Copies(f, n)| == n
  {
    hide Copies;
    if n == 0 {
      OneMoreCopy(f, 0);
    } else {
      CopiesSize(f, n - 1);
      OneMoreCopy(f, n - 1);
    }
  }

  /** New feedback enters any list's selection once per listing of its client, where its tags are asked for. */
  lemma FeedbackEntersSummary(s: State, call: Call, agentExists: bool, self: bool, agentId: nat, clients: seq<Address>,
                              tag1: string, tag2: string)
    requires Inv(s) && call.GiveFeedback? && Exec(s, call, agentExists, self).Done?
    ensures var s', f := Exec(s, call, agentExists, self).state, Feedback(call.value, call.decimals, false, call.tag1, call.tag2);
            var was, now := Selected(s, agentId, clients, tag1, tag2), Selected(s', agentId, clients, tag1, tag2);
            if agentId == call.agentId && (tag1 == "" || call.tag1 == tag1) && (tag2 == "" || call.tag2 == tag2)
            then multiset(now) == multiset(was) + Copies(f, Listings(clients, call.caller))
                 && |now| == |was| + Listings(clients, call.caller)
            else now == was
  {
    hide Exec;
    hide Inv;
    hide Selected;
    hide GivenBy;
    var s', f := Exec(s, call, agentExists, self).state, Feedback(call.value, call.decimals, false, call.tag1, call.tag2);
    var asked := agentId == call.agentId && (tag1 == "" || call.tag1 == tag1) && (tag2 == "" || call.tag2 == tag2);
    forall d: Address
      ensures !asked ==> GivenBy(s', agentId, d, tag1, tag2) == GivenBy(s, agentId, d, tag1, tag2)
      ensures asked ==> (multiset(GivenBy(s', agentId, d, tag1, tag2))
                      == multiset(GivenBy(s, agentId, d, tag1, tag2)) + if d == call.caller then multiset{f} else multiset{})
    {
      GiveAdds(s, call, agentExists, self, agentId, d, tag1, tag2);
    }
    if asked {
      SelectedLoses(s', s, agentId, clients, call.caller, f, tag1, tag2);
      Sizes(Selected(s', agentId, clients, tag1, tag2), Selected(s, agentId, clients, tag1, tag2), f, Listings(clients, call.caller));
    } else {
      SelectedKept(s, s', agentId, clients, tag1, tag2);
    }
  }

  // ---------------------------------------------------------------- the numbers

  /** The powers of ten, and the scale of eighteen decimals. */
  lemma {:induction false} Powers(a: nat, b: nat)
    ensures Pow10(0) == 1 && Pow10(1) == 10 && Pow10(a + b) == Pow10(a) * Pow10(b)
    ensures Pow10(18) == 1_000_000_000_000_000_000
  {
    assert Pow10(6) == 1_000_000;
    assert Pow10(12) == 1_000_000_000_000;
    if a > 0 {
      Powers(a - 1, b);
      assert Pow10(a + b) == 10 * Pow10(a - 1 + b);
      assert 10 * (Pow10(a - 1) * Pow10(b)) == (10 * Pow10(a - 1)) * Pow10(b);
    }
  }

  /** A normalised value is the value with eighteen decimals, exactly. */
  lemma Normalised(f: Feedback)
    requires f.decimals <= 18
    ensures Wad(f) * Pow10(f.decimals) == f.value * 1_000_000_000_000_000_000
  {
    hide Pow10;
    var up, down := Pow10(18 - f.decimals), Pow10(f.decimals);
    Powers(18 - f.decimals, f.decimals);
    assert (f.value * up) * down == f.value * (up * down);
  }

  /** Truncation is toward zero. */
  lemma TowardZero(a: int, d: int)
    requires d > 0
    ensures var q := Trunc(a, d); if a >= 0 then 0 <= a - q * d < d && q >= 0 else 0 <= q * d - a < d && q <= 0
  {
    hide Quot;
    Division(if a >= 0 then a else -a, d);
  }

  /** The first five clients listed, and the range of a 128-bit sum. */
  lemma Limits(clients: seq<Address>, x: int)
    ensures Considered(clients) == if |clients| <= 5 then clients else clients[..5]
    ensures FitsI128(x) <==>
              -170_141_183_460_469_231_731_687_303_715_884_105_728 <= x <= 170_141_183_460_469_231_731_687_303_715_884_105_727
  {
  }

  /** The decimals of a summary are the most frequent of the feedback it is over, the least of them on a tie. */
  lemma LeastMostFrequent(fs: seq<Feedback>, m: nat, d: nat)
    requires IsMode(fs, m) && d <= 18
    ensures m <= 18 && Frequency(fs, d) <= Frequency(fs, m) && (d < m ==> Frequency(fs, d) < Frequency(fs, m))
  {
    hide Frequency;
  }
}
