/** The encoders that turn a message into the proposal to vote for. */
module MessageHandlers {
  import opened Bytes
  import opened Messages

  function NewProposal(m: Message, data: seq<byte>, handler: Address, bridge: Address): Proposal {
    Proposal(m.source, m.depositNonce, m.resourceId, data, handler, bridge, m.depositTxHash, m.depositBlock)
  }

  /** A payload of n byte slices; anything else is rejected by every handler. */
  predicate WellFormed(m: Message, n: nat) {
    |m.payload| == n && forall i :: 0 <= i < n ==> m.payload[i].Data?
  }

  function Erc20Proposal(m: Message, handler: Address, bridge: Address): Outcome<Proposal> {
    if !WellFormed(m, 2) then Error
    else
      var amount, recipient := m.payload[0].bytes, m.payload[1].bytes;
      Ok(NewProposal(m, LeftPad(amount, 32) + Word(|recipient|) + recipient, handler, bridge))
  }

  function Erc721Proposal(m: Message, handler: Address, bridge: Address): Outcome<Proposal> {
    if !WellFormed(m, 3) then Error
    else
      var tokenId, recipient, metadata := m.payload[0].bytes, m.payload[1].bytes, m.payload[2].bytes;
      Ok(NewProposal(m, LeftPad(tokenId, 32) + Word(|recipient|) + recipient + Word(|metadata|) + metadata,
                     handler, bridge))
  }

  function GenericProposal(m: Message, handler: Address, bridge: Address): Outcome<Proposal> {
    if !WellFormed(m, 1) then Error
    else
      var metadata := m.payload[0].bytes;
      Ok(NewProposal(m, Word(|metadata|) + metadata, handler, bridge))
  }

  /** Proposals carry the identity of their message, and the addresses they are made for. */
  lemma ProposalFields(m: Message, handler: Address, bridge: Address, r: Outcome<Proposal>)
    requires r in {Erc20Proposal(m, handler, bridge), Erc721Proposal(m, handler, bridge),
                   GenericProposal(m, handler, bridge)}
    ensures r.Ok? ==>
              && r.value.source == m.source && r.value.depositNonce == m.depositNonce
              && r.value.resourceId == m.resourceId
              && r.value.handlerAddress == handler && r.value.bridgeAddress == bridge
              && r.value.depositTxHash == m.depositTxHash && r.value.depositBlock == m.depositBlock
  {
  }

  /** What is accepted: two, three or one byte slices. */
  lemma ProposalsExactly(m: Message, handler: Address, bridge: Address)
    ensures Erc20Proposal(m, handler, bridge).Ok?
            <==> |m.payload| == 2 && m.payload[0].Data? && m.payload[1].Data?
    ensures Erc721Proposal(m, handler, bridge).Ok?
            <==> |m.payload| == 3 && m.payload[0].Data? && m.payload[1].Data? && m.payload[2].Data?
    ensures GenericProposal(m, handler, bridge).Ok? <==> |m.payload| == 1 && m.payload[0].Data?
    ensures !Erc20Proposal(m, handler, bridge).Panic? && !Erc721Proposal(m, handler, bridge).Panic?
            && !GenericProposal(m, handler, bridge).Panic?
  {
  }

  method ERC20MessageHandler(msg: Message, handler: Address, bridge: Address) returns (r: Outcome<Proposal>)
    ensures r == Erc20Proposal(msg, handler, bridge)
  {
    if |msg.payload| != 2 {
      return Error;
    }
    if !msg.payload[0].Data? {
      return Error;
    }
    var amount := msg.payload[0].bytes;
    if !msg.payload[1].Data? {
      return Error;
    }
    var recipient := msg.payload[1].bytes;
    var data: seq<byte> := [];
    data := data + LeftPad(amount, 32);
    data := data + LeftPad(FromNat(|recipient|), 32);
    data := data + recipient;
    assert data == LeftPad(amount, 32) + Word(|recipient|) + recipient;
    r := Ok(NewProposal(msg, data, handler, bridge));
  }

  method ERC721MessageHandler(msg: Message, handler: Address, bridge: Address) returns (r: Outcome<Proposal>)
    ensures r == Erc721Proposal(msg, handler, bridge)
  {
    if |msg.payload| != 3 {
      return Error;
    }
    if !msg.payload[0].Data? {
      return Error;
    }
    var tokenId := msg.payload[0].bytes;
    if !msg.payload[1].Data? {
      return Error;
    }
    var recipient := msg.payload[1].bytes;
    if !msg.payload[2].Data? {
      return Error;
    }
    var metadata := msg.payload[2].bytes;
    var data: seq<byte> := [];
    data := data + LeftPad(tokenId, 32);
    data := data + LeftPad(FromNat(|recipient|), 32);
    data := data + recipient;
    data := data + LeftPad(FromNat(|metadata|), 32);
    data := data + metadata;
    assert data == LeftPad(tokenId, 32) + Word(|recipient|) + recipient + Word(|metadata|) + metadata;
    r := Ok(NewProposal(msg, data, handler, bridge));
  }

  method GenericMessageHandler(msg: Message, handler: Address, bridge: Address) returns (r: Outcome<Proposal>)
    ensures r == GenericProposal(msg, handler, bridge)
  {
    if |msg.payload| != 1 {
      return Error;
    }
    if !msg.payload[0].Data? {
      return Error;
    }
    var metadata := msg.payload[0].bytes;
    var data: seq<byte> := [];
    data := data + LeftPad(FromNat(|metadata|), 32);
    data := data + metadata;
    assert data == Word(|metadata|) + metadata;
    r := Ok(NewProposal(msg, data, handler, bridge));
  }
}
