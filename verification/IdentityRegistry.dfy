// The identity contract as it runs: storage slots changed in place, events appended as they are emitted.
module IdentityRegistry {
  import opened Basics
  import opened Events
  import Identity

  class Registry {
    var owners: map<nat, Address>
    var next: nat
    var uris: map<nat, string>
    var wallets: map<nat, Address>
    var metadata: map<(nat, string), string>
    var keys: map<nat, seq<string>>
    var emitted: seq<Wire>

    constructor ()
      ensures Contents() == Identity.GENESIS && emitted == []
    {
      owners, next, uris, wallets, metadata, keys, emitted := map[], 0, map[], map[], map[], map[], [];
    }

    function Contents(): Identity.State
      reads this
    {
      Identity.State(owners, next, uris, wallets, metadata, keys)
    }

    /** A call's error or panic: the host restores everything the call wrote. */
    method Restore(s: Identity.State, log: seq<Wire>)
      modifies this
      ensures Contents() == s && emitted == log
    {
      owners, next, uris, wallets, metadata, keys, emitted := s.owners, s.next, s.uris, s.wallets, s.metadata, s.keys, log;
    }

    // -------------------------------------------------------------- storage

    /** Searches the key list; a new key goes to its end. */
    method RecordMetadataKey(id: nat, key: string)
      modifies this`keys
      ensures keys == old(keys)[id := Identity.RecordKey(Identity.KeysOf(old(Contents()), id), key)]
    {
      var list := if id in keys then keys[id] else [];
      assert list == Identity.KeysOf(Contents(), id);
      var i := 0;
      while i < |list|
        invariant 0 <= i <= |list| && key !in list[..i]
        invariant keys == old(keys)
      {
        if list[i] == key {
          assert key in list && keys[id := list] == keys;
          return;
        }
        i := i + 1;
      }
      assert list[..|list|] == list;
      keys := keys[id := list + [key]];
    }

    method StoreMetadata(id: nat, key: string, value: string)
      modifies this`keys, this`metadata
      ensures Contents() == Identity.PutMetadata(old(Contents()), id, key, value)
    {
      RecordMetadataKey(id, key);
      metadata := metadata[(id, key) := value];
    }

    /** Removes entry after entry of the key list, then the list. */
    method ClearAllMetadata(id: nat)
      modifies this`keys, this`metadata
      ensures Contents() == Identity.ClearMetadata(old(Contents()), id)
    {
      ghost var first := metadata;
      ghost var named := Identity.KeysOf(Contents(), id);
      if id in keys {
        var list := keys[id];
        var i := 0;
        while i < |list|
          invariant 0 <= i <= |list| && keys == old(keys)
          invariant metadata == map e | e in first && !(e.0 == id && e.1 in list[..i]) :: first[e]
        {
          assert list[..i + 1] == list[..i] + [list[i]];
          metadata := metadata - {(id, list[i])};
          i := i + 1;
        }
        assert list[..|list|] == list;
        keys := keys - {id};
      } else {
        assert keys - {id} == keys;
        assert metadata == map e | e in first && !(e.0 == id && e.1 in named) :: first[e];
      }
    }

    // -------------------------------------------------------------- registration

    method Mint(caller: Address) returns (id: nat)
      modifies this`owners, this`next
      ensures id == old(next) && next == id + 1 && owners == old(owners)[id := caller]
    {
      id := next;
      owners := owners[id := caller];
      next := next + 1;
    }

    method InitAgentWallet(id: nat, owner: Address)
      modifies this`wallets, this`emitted
      ensures wallets == old(wallets)[id := owner] && emitted == old(emitted) + [WireMetadataSet(id, AGENT_WALLET, owner)]
    {
      wallets := wallets[id := owner];
      emitted := emitted + [WireMetadataSet(id, AGENT_WALLET, owner)];
    }

    method Register(caller: Address) returns (id: nat)
      modifies this
      ensures Ran(Identity.Exec(old(Contents()), Identity.Register(caller)), old(emitted))
      ensures id == old(next)
    {
      NothingToPut(Contents(), next, caller, None);
      ghost var log := emitted;
      id := Mint(caller);
      InitAgentWallet(id, caller);
      emitted := emitted + [WireRegistered(id, caller, "")];
    }

    method RegisterWithUri(caller: Address, uri: string) returns (id: nat)
      modifies this
      ensures Ran(Identity.Exec(old(Contents()), Identity.RegisterWithUri(caller, uri)), old(emitted))
      ensures id == old(next)
    {
      NothingToPut(Contents(), next, caller, Some(uri));
      id := Mint(caller);
      uris := uris[id := uri];
      InitAgentWallet(id, caller);
      emitted := emitted + [WireRegistered(id, caller, uri)];
    }

    /** The assertions of register_full: None is a panic, before anything is written. */
    method CheckEntries(entries: seq<(string, string)>) returns (ok: bool)
      ensures ok <==> |entries| <= Identity.MAX_METADATA_KEYS && forall e | e in entries :: Identity.EntryAllowed(e)
    {
      if |entries| > Identity.MAX_METADATA_KEYS {
        return false;
      }
      var i := 0;
      while i < |entries|
        invariant 0 <= i <= |entries|
        invariant forall e | e in entries[..i] :: Identity.EntryAllowed(e)
      {
        if |entries[i].0| > Identity.MAX_METADATA_KEY_LEN || |entries[i].1| > Identity.MAX_METADATA_VALUE_LEN
           || entries[i].0 == AGENT_WALLET {
          assert !Identity.EntryAllowed(entries[i]);
          return false;
        }
        i := i + 1;
      }
      return true;
    }

    method StoreEntries(id: nat, entries: seq<(string, string)>)
      modifies this`keys, this`metadata, this`emitted
      ensures Contents() == Identity.PutAll(old(Contents()), id, entries)
      ensures emitted == old(emitted) + Identity.Announce(id, entries)
    {
      var i := 0;
      while i < |entries|
        invariant 0 <= i <= |entries|
        invariant Contents() == Identity.PutAll(old(Contents()), id, entries[..i])
        invariant emitted == old(emitted) + Identity.Announce(id, entries[..i])
      {
        assert entries[..i + 1][..i] == entries[..i];
        StoreMetadata(id, entries[i].0, entries[i].1);
        emitted := emitted + [WireMetadataSet(id, entries[i].0, entries[i].1)];
        i := i + 1;
      }
      assert entries[..|entries|] == entries;
    }

    method RegisterFull(caller: Address, uri: string, entries: seq<(string, string)>) returns (r: Option<nat>)
      modifies this
      ensures var o := Identity.Exec(old(Contents()), Identity.RegisterFull(caller, uri, entries));
              if r.Some? then r.value == old(next) && Ran(o, old(emitted))
              else Refused(o, Identity.Panic, old(Contents()), old(emitted))
    {
      hide Identity.PutAll;
      hide Identity.Announce;
      hide Identity.EntryAllowed;
      var ok := CheckEntries(entries);
      if !ok {
        return None;
      }
      var id := Mint(caller);
      uris := uris[id := uri];
      InitAgentWallet(id, caller);
      StoreEntries(id, entries);
      emitted := emitted + [WireRegistered(id, caller, uri)];
      return Some(id);
    }

    // -------------------------------------------------------------- the other entry points

    /** The call did what its specification says: its state, and its events after those already there. */
    predicate Ran(o: Identity.Outcome, log: seq<Wire>)
      reads this
    {
      o.Done? && Contents() == o.state && emitted == log + o.emitted
    }

    /** An error leaves storage and events as they were. */
    ghost predicate Refused(o: Identity.Outcome, e: Identity.Error, s: Identity.State, log: seq<Wire>)
      reads this
    {
      o == Identity.Failed(e) && Contents() == s && emitted == log
    }

    method RequireOwnerOrApproved(caller: Address, id: nat, approved: bool) returns (refusal: Option<Identity.Error>)
      ensures refusal == Identity.Authorise(Contents(), caller, id, approved)
    {
      if id !in owners {
        return Some(Identity.AgentNotFound);
      }
      if caller == owners[id] || approved {
        return None;
      }
      return Some(Identity.NotOwnerOrApproved);
    }

    method SetAgentUri(caller: Address, id: nat, uri: string, approved: bool) returns (r: Option<Identity.Error>)
      modifies this
      ensures var o := Identity.Exec(old(Contents()), Identity.SetAgentUri(caller, id, uri, approved));
              if r.None? then Ran(o, old(emitted)) else Refused(o, r.value, old(Contents()), old(emitted))
    {
      if uri == "" {
        return Some(Identity.EmptyValue);
      }
      var refusal := RequireOwnerOrApproved(caller, id, approved);
      if refusal.Some? {
        return refusal;
      }
      uris := uris[id := uri];
      emitted := emitted + [WireUriUpdated(id, caller, uri)];
      return None;
    }

    method SetMetadata(caller: Address, id: nat, key: string, value: string, approved: bool) returns (r: Option<Identity.Error>)
      modifies this
      ensures var o := Identity.Exec(old(Contents()), Identity.SetMetadata(caller, id, key, value, approved));
              if r.None? then Ran(o, old(emitted)) else Refused(o, r.value, old(Contents()), old(emitted))
    {
      if key == "" {
        return Some(Identity.EmptyValue);
      }
      if |key| > Identity.MAX_METADATA_KEY_LEN {
        return Some(Identity.MetadataKeyTooLong);
      }
      if |value| > Identity.MAX_METADATA_VALUE_LEN {
        return Some(Identity.MetadataValueTooLong);
      }
      if key == AGENT_WALLET {
        return Some(Identity.ReservedMetadataKey);
      }
      var refusal := RequireOwnerOrApproved(caller, id, approved);
      if refusal.Some? {
        return refusal;
      }
      var count := if id in keys then |keys[id]| else 0;
      if (id, key) !in metadata && count >= Identity.MAX_METADATA_KEYS {
        return Some(Identity.TooManyMetadataKeys);
      }
      StoreMetadata(id, key, value);
      emitted := emitted + [WireMetadataSet(id, key, value)];
      return None;
    }

    method SetAgentWallet(caller: Address, id: nat, wallet: Address, approved: bool) returns (r: Option<Identity.Error>)
      modifies this
      ensures var o := Identity.Exec(old(Contents()), Identity.SetAgentWallet(caller, id, wallet, approved));
              if r.None? then Ran(o, old(emitted)) else Refused(o, r.value, old(Contents()), old(emitted))
    {
      var refusal := RequireOwnerOrApproved(caller, id, approved);
      if refusal.Some? {
        return refusal;
      }
      wallets := wallets[id := wallet];
      emitted := emitted + [WireMetadataSet(id, AGENT_WALLET, wallet)];
      return None;
    }

    method UnsetAgentWallet(caller: Address, id: nat, approved: bool) returns (r: Option<Identity.Error>)
      modifies this
      ensures var o := Identity.Exec(old(Contents()), Identity.UnsetAgentWallet(caller, id, approved));
              if r.None? then Ran(o, old(emitted)) else Refused(o, r.value, old(Contents()), old(emitted))
    {
      var refusal := RequireOwnerOrApproved(caller, id, approved);
      if refusal.Some? {
        return refusal;
      }
      wallets := wallets - {id};
      emitted := emitted + [WireMetadataSet(id, AGENT_WALLET, "")];
      return None;
    }

    /** The override: clear first, then the NFT base moves the token or panics and the host undoes the clearing. */
    method Transfer(from: Address, to: Address, id: nat, authorised: bool) returns (r: Option<Identity.Error>)
      modifies this
      ensures var o := Identity.Exec(old(Contents()), Identity.Transfer(from, to, id, authorised));
              if r.None? then Ran(o, old(emitted)) else Refused(o, r.value, old(Contents()), old(emitted))
    {
      var before, log := Contents(), emitted;
      wallets := wallets - {id};
      ClearAllMetadata(id);
      emitted := emitted + [WireMetadataSet(id, AGENT_WALLET, "")];
      if id !in owners || owners[id] != from || !authorised {
        Restore(before, log);
        return Some(Identity.Panic);
      }
      owners := owners[id := to];
      emitted := emitted + [WireTransfer(from, to, id)];
      return None;
    }
  }

  lemma NothingToPut(s: Identity.State, id: nat, caller: Address, uri: Option<string>)
    ensures Identity.PutAll(s, id, []) == s && Identity.Announce(id, []) == []
  {
  }
}
