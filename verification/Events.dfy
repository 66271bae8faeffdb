// Events as the identity contract emits them, and as the indexer's parsers hand them to the writer.
module Events {
  import opened Basics

  datatype Contract = IdentityContract | ReputationContract | ValidationContract

  /** What the identity registry publishes: every wallet write travels as metadata. */
  datatype Wire =
    | WireRegistered(agentId: nat, owner: Address, uri: string)
    | WireUriUpdated(agentId: nat, updatedBy: Address, uri: string)
    | WireMetadataSet(agentId: nat, key: string, value: string)
    | WireTransfer(from: Address, to: Address, tokenId: nat)

  datatype Event =
    | Registered(agentId: nat, owner: Address, uri: string)
    | UriUpdated(agentId: nat, uri: string)
    | MetadataSet(agentId: nat, key: string, value: string)
    | AgentWalletSet(agentId: nat, wallet: Address)
    | AgentWalletUnset(agentId: nat)
    | AgentTransferred(agentId: nat, to: Address)
    | NewFeedback(agentId: nat, client: Address, index: nat, score: int, decimals: nat, tag1: string, tag2: string)
    | FeedbackRevoked(agentId: nat, client: Address, index: nat)
    | ResponseAppended(agentId: nat, client: Address, index: nat, responder: Address, uri: string)
    | ValidationRequested(hash: string, agentId: nat, validator: Address, uri: string)
    | ValidationResponded(hash: string, response: nat, responseHash: string, tag: string)
      // Events the parsers do not turn into a write.
    | Unrelated
    | Malformed

  /** An event with its place on chain: `id` is the paging token, unique and increasing. */
  datatype Packet = Packet(id: nat, ledger: nat, data: Event)

  const AGENT_WALLET := "agentWallet"

  /** The parser's promotion of the reserved key: an empty value unsets the wallet. */
  function Parse(w: Wire): Event {
    match w
    case WireRegistered(id, owner, uri) => Registered(id, owner, uri)
    case WireUriUpdated(id, _, uri) => UriUpdated(id, uri)
    case WireTransfer(_, to, id) => AgentTransferred(id, to)
    case WireMetadataSet(id, key, value) =>
      if key != AGENT_WALLET then MetadataSet(id, key, value)
      else if value == "" then AgentWalletUnset(id)
      else if |value| == 56 then AgentWalletSet(id, value)
      else Malformed
  }

  function ParseAll(ws: seq<Wire>): (es: seq<Event>)
    ensures |es| == |ws|
  {
    if ws == [] then [] else ParseAll(ws[..|ws| - 1]) + [Parse(ws[|ws| - 1])]
  }
}
