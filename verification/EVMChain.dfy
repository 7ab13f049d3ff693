/** An EVM chain's PollEvents: choose the start block, launch the listener, forward its messages. */
module EVMChain {
  import opened BigInts
  import opened BlockScan
  import opened Bytes
  import opened Messages
  import opened Stores
  import CrashRecovery
  import EVMListener

  /** One launch, with the messages forwarded. The configured start block is the very object the
      listener moves on, unless the store holds a later block or the scan starts at the head. */
  method PollEvents(cfg: CrashRecovery.Config, startBlock: BigInt, blockDelay: BigInt, domainID: uint8,
                    blockstore: BlockStore, readable: bool, chain: Chain, polls: seq<Poll>)
    returns (r: Outcome<()>, eventsChan: seq<Message>)
    requires startBlock.v == cfg.startBlock && blockDelay.v == cfg.delay && startBlock != blockDelay
    modifies startBlock, blockstore.db
    ensures r.Error? <==> !cfg.latest && !cfg.freshStart && !readable
    ensures var stored := StoredBlock(old(blockstore.db.data), domainID);
            var launch := CrashRecovery.Launch(readable);
            CrashRecovery.Next(cfg, chain, CrashRecovery.Initial(stored), launch).process
            == if r.Error? then CrashRecovery.Down
               else CrashRecovery.Polling(CrashRecovery.LaunchPos(cfg, stored))
    ensures r.Error? ==> eventsChan == []
                         && startBlock.v == old(startBlock.v) && blockstore.db.data == old(blockstore.db.data)
    ensures !r.Error? ==>
              var stored := StoredBlock(old(blockstore.db.data), domainID);
              var pos := CrashRecovery.LaunchPos(cfg, stored);
              var run := Run(MAX_SPAN, cfg.delay, chain, Scan(pos, [], [], stored, false), polls);
              && (r.Panic? <==> run.crashed)
              && eventsChan == run.sent
              && StoredBlock(blockstore.db.data, domainID) == run.stored
              && (pos.Some? ==> run.pos.Some?)
              && startBlock.v == if pos == Some(cfg.startBlock) then run.pos.value else cfg.startBlock
    ensures OthersUnchanged(domainID, old(blockstore.db.data), blockstore.db.data)
  {
    eventsChan := [];
    var start := blockstore.GetStartBlock(domainID, startBlock, cfg.latest, cfg.freshStart, readable);
    if start.Error? {
      return Error, [];
    }
    ghost var stored := StoredBlock(blockstore.db.data, domainID);
    ghost var pos := Position(start.value);
    assert pos == CrashRecovery.LaunchPos(cfg, stored);
    PositionStays(MAX_SPAN, cfg.delay, chain, Scan(pos, [], [], stored, false), polls);
    var ech, _, panicked := EVMListener.ListenToEvents(start.value, blockDelay, domainID, blockstore, chain, polls);
    var i := 0;
    while i < |ech|
      invariant 0 <= i <= |ech|
      invariant eventsChan == ech[..i]
    {
      eventsChan := eventsChan + [ech[i]];
      i := i + 1;
    }
    r := if panicked then Panic else Ok(());
  }

  /** A position, once there, only moves forward. */
  lemma {:induction false} PositionStays(span: nat, delay: nat, chain: Chain, st: Scan, polls: seq<Poll>)
    ensures st.pos.Some? ==> Run(span, delay, chain, st, polls).pos.Some?
                             && st.pos.value <= Run(span, delay, chain, st, polls).pos.value
  {
    if polls != [] {
      PositionStays(span, delay, chain, st, polls[..|polls| - 1]);
    }
  }
}
