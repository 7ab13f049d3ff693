/** The Substrate listener's loop in its own form. */
module SubstrateListener {
  import opened BigInts
  import opened Bytes
  import opened Messages
  import opened Stores
  import opened SubstrateScan

  class SubstrateListener {
    /** The kinds of events that a handler is registered for. */
    const subscribed: set<TransferType>

    constructor (subscribed: set<TransferType>)
      ensures this.subscribed == subscribed
    {
      this.subscribed := subscribed;
    }

    /** Appends the messages of one kind of events; none stands for the first handler error. */
    method AppendKind(handle: Answers, kind: TransferType, events: seq<ChainEvent>, msgs0: seq<Message>)
      returns (msgs: Option<seq<Message>>)
      ensures var r := HandleKind(subscribed, handle, kind, events);
              msgs == if r.None? then None else Some(msgs0 + r.value)
    {
      if kind !in subscribed {
        assert msgs0 + [] == msgs0;
        return Some(msgs0);
      }
      var done := msgs0;
      var i := 0;
      while i < |events|
        invariant 0 <= i <= |events|
        invariant HandleAll(handle, kind, events[..i]).Some?
        invariant done == msgs0 + HandleAll(handle, kind, events[..i]).value
      {
        var m := handle(kind, events[i]);
        assert events[..i + 1][..i] == events[..i];
        if m.None? {
          HandleAllPrefix(handle, kind, events, i + 1);
          return None;
        }
        done := done + [m.value];
        i := i + 1;
      }
      assert events[..i] == events;
      msgs := Some(done);
    }

    method HandleEvents(handle: Answers, events: Events, updated: bool) returns (msgs: Option<seq<Message>>)
      ensures msgs == SubstrateScan.HandleEvents(subscribed, handle, events, updated)
      ensures msgs.Some? ==> InTurn(subscribed, handle, events, msgs.value)
    {
      msgs := AppendKind(handle, FungibleTransfer, events.fungible, []);
      if msgs.None? {
        return;
      }
      msgs := AppendKind(handle, NonFungibleTransfer, events.nonFungible, msgs.value);
      if msgs.None? {
        return;
      }
      msgs := AppendKind(handle, GenericTransfer, events.generic, msgs.value);
      if msgs.None? {
        return;
      }
      if events.codeUpdated > 0 {
        if !updated {
          return None;
        }
      }
      assert msgs.value == AllMessages(subscribed, handle, events).value;
      AllMessagesExact(subscribed, handle, events);
    }

    /** One launch over the remote answers `polls`, until it is stopped. The start block is updated in
        place when one is given. */
    method ListenToEvents(startBlock0: BigInt?, domainID: uint8, blockstore: BlockStore, chain: Chain, polls: seq<Poll>)
      returns (ch: seq<Message>, startBlock: BigInt?)
      requires startBlock0 != null ==> startBlock0.v >= 0
      modifies if startBlock0 == null then {} else {startBlock0}
      modifies blockstore.db
      ensures startBlock0 != null ==> startBlock == startBlock0
      ensures startBlock0 == null ==> startBlock == null || fresh(startBlock)
      ensures startBlock != null ==> startBlock.v >= 0
      ensures var st := Scan(old(Position(startBlock0)), [], [], StoredBlock(old(blockstore.db.data), domainID));
              var r := Run(subscribed, chain, st, polls);
              && ch == r.sent && Position(startBlock) == r.pos
              && StoredBlock(blockstore.db.data, domainID) == r.stored
      ensures OthersUnchanged(domainID, old(blockstore.db.data), blockstore.db.data)
    {
      ghost var st := Scan(Position(startBlock0), [], [], StoredBlock(blockstore.db.data, domainID));
      ghost var r := st;
      ch, startBlock := [], startBlock0;
      var i := 0;
      while i < |polls|
        invariant 0 <= i <= |polls|
        invariant startBlock0 != null ==> startBlock == startBlock0
        invariant startBlock0 == null ==> startBlock == null || fresh(startBlock)
        invariant startBlock != null ==> startBlock.v >= 0
        invariant r == Run(subscribed, chain, st, polls[..i])
        invariant ch == r.sent && Position(startBlock) == r.pos
        invariant StoredBlock(blockstore.db.data, domainID) == r.stored
        invariant OthersUnchanged(domainID, old(blockstore.db.data), blockstore.db.data)
      {
        assert polls[..i + 1][..i] == polls[..i];
        ghost var before := r;
        r := Step(subscribed, chain, r, polls[i]);
        ch, startBlock := Iterate(startBlock, domainID, blockstore, chain, polls[i], ch, before);
        i := i + 1;
      }
      assert polls[..i] == polls;
    }

    /** The body of the loop. `continue` in the source is a return here. */
    method Iterate(startBlock0: BigInt?, domainID: uint8, blockstore: BlockStore, chain: Chain, poll: Poll,
                   ch0: seq<Message>, ghost st: Scan)
      returns (ch: seq<Message>, startBlock: BigInt?)
      requires startBlock0 != null ==> startBlock0.v >= 0
      requires st.pos == Position(startBlock0) && st.sent == ch0
      requires st.stored == StoredBlock(blockstore.db.data, domainID)
      modifies if startBlock0 == null then {} else {startBlock0}
      modifies blockstore.db
      ensures startBlock0 != null ==> startBlock == startBlock0
      ensures startBlock0 == null ==> startBlock == null || fresh(startBlock)
      ensures startBlock != null ==> startBlock.v >= 0
      ensures var r := Step(subscribed, chain, st, poll);
              && ch == r.sent && Position(startBlock) == r.pos
              && StoredBlock(blockstore.db.data, domainID) == r.stored
      ensures OthersUnchanged(domainID, old(blockstore.db.data), blockstore.db.data)
    {
      ch, startBlock := ch0, startBlock0;
      if poll.HeaderFailed? {
        return;
      }
      var finalized := new BigInt(poll.number);
      if startBlock == null {
        startBlock := new BigInt(poll.number);
      }
      var ahead := startBlock.Cmp(finalized);
      if ahead == 1 {
        return;
      }
      if !poll.hashed || !poll.fetched {
        return;
      }
      ch := TakeBlock(startBlock, domainID, blockstore, chain, poll, ch, st);
    }

    /** Handles the events of the block, sends its messages, stores it and moves on to the next. */
    method TakeBlock(startBlock: BigInt, domainID: uint8, blockstore: BlockStore, chain: Chain, poll: Poll,
                     ch0: seq<Message>, ghost st: Scan)
      returns (ch: seq<Message>)
      requires poll.Header? && 0 <= startBlock.v <= poll.number && poll.hashed && poll.fetched
      requires startBlock.v == Start(st.pos, poll.number) && st.sent == ch0
      requires st.stored == StoredBlock(blockstore.db.data, domainID)
      modifies startBlock, blockstore.db
      ensures startBlock.v >= 0
      ensures var r := Step(subscribed, chain, st, poll);
              && ch == r.sent && Some(startBlock.v) == r.pos
              && StoredBlock(blockstore.db.data, domainID) == r.stored
      ensures OthersUnchanged(domainID, old(blockstore.db.data), blockstore.db.data)
    {
      StepTakes(subscribed, chain, st, poll, startBlock.v);
      ch := ch0;
      var msgs := HandleEvents(poll.handle, chain(startBlock.v), poll.updated);
      if msgs.Some? {
        ch := ch + msgs.value;
      }
      var _ := blockstore.StoreBlock(startBlock, domainID, poll.saved);
      var one := new BigInt(1);
      startBlock.Add(startBlock, one);
    }
  }
}
