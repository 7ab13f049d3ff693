/** The EVM listener's loop in its own form: mutable big integers, a channel, the block store. */
module EVMListener {
  import opened BigInts
  import opened BlockScan
  import opened Bytes
  import opened Messages
  import opened Stores

  /** One launch of the listener over the remote answers `polls`, until it is stopped or the event
      handler panics. The start block is updated in place: at the end it is the object the caller
      passed, or, when none was passed, the first head, which the scan then overwrites as well. */
  method ListenToEvents(startBlock0: BigInt?, blockDelay: BigInt, domainID: uint8, blockstore: BlockStore,
                        chain: Chain, polls: seq<Poll>)
    returns (ch: seq<Message>, startBlock: BigInt?, panicked: bool)
    requires startBlock0 != null ==> startBlock0.v >= 0
    requires blockDelay.v >= 0 && startBlock0 != blockDelay
    modifies if startBlock0 == null then {} else {startBlock0}
    modifies blockstore.db
    ensures startBlock0 != null ==> startBlock == startBlock0
    ensures startBlock0 == null ==> startBlock == null || fresh(startBlock)
    ensures startBlock != null ==> startBlock.v >= 0
    ensures var st := Scan(old(Position(startBlock0)), [], [], StoredBlock(old(blockstore.db.data), domainID), false);
            var r := Run(MAX_SPAN, old(blockDelay.v), chain, st, polls);
            && ch == r.sent && panicked == r.crashed
            && Position(startBlock) == r.pos
            && StoredBlock(blockstore.db.data, domainID) == r.stored
    ensures OthersUnchanged(domainID, old(blockstore.db.data), blockstore.db.data)
  {
    ghost var st := Scan(Position(startBlock0), [], [], StoredBlock(blockstore.db.data, domainID), false);
    ghost var delay: nat := blockDelay.v;
    ghost var r := st;
    ch, startBlock, panicked := [], startBlock0, false;
    var i := 0;
    while i < |polls| && !panicked
      invariant 0 <= i <= |polls|
      invariant blockDelay.v == delay && startBlock != blockDelay
      invariant startBlock0 != null ==> startBlock == startBlock0
      invariant startBlock0 == null ==> startBlock == null || fresh(startBlock)
      invariant startBlock != null ==> startBlock.v >= 0
      invariant r == Run(MAX_SPAN, delay, chain, st, polls[..i])
      invariant ch == r.sent && panicked == r.crashed && Position(startBlock) == r.pos
      invariant StoredBlock(blockstore.db.data, domainID) == r.stored
      invariant OthersUnchanged(domainID, old(blockstore.db.data), blockstore.db.data)
    {
      assert polls[..i + 1][..i] == polls[..i];
      ghost var before := r;
      r := Step(MAX_SPAN, delay, chain, r, polls[i]);
      ch, startBlock, panicked := Iterate(startBlock, blockDelay, domainID, blockstore, chain, polls[i], ch, before);
      i := i + 1;
    }
    EndsThere(MAX_SPAN, delay, chain, st, polls, i);
  }

  /** The body of the loop. `continue` in the source is a return here. */
  method Iterate(startBlock0: BigInt?, blockDelay: BigInt, domainID: uint8, blockstore: BlockStore,
                 chain: Chain, poll: Poll, ch0: seq<Message>, ghost st: Scan)
    returns (ch: seq<Message>, startBlock: BigInt?, panicked: bool)
    requires startBlock0 != null ==> startBlock0.v >= 0
    requires blockDelay.v >= 0 && startBlock0 != blockDelay
    requires st.pos == Position(startBlock0) && st.sent == ch0 && !st.crashed
    requires st.stored == StoredBlock(blockstore.db.data, domainID)
    modifies if startBlock0 == null then {} else {startBlock0}
    modifies blockstore.db
    ensures startBlock0 != null ==> startBlock == startBlock0
    ensures startBlock0 == null ==> startBlock == null || fresh(startBlock)
    ensures startBlock != null ==> startBlock.v >= 0
    ensures var r := Step(MAX_SPAN, old(blockDelay.v), chain, st, poll);
            && ch == r.sent && panicked == r.crashed
            && Position(startBlock) == r.pos
            && StoredBlock(blockstore.db.data, domainID) == r.stored
    ensures OthersUnchanged(domainID, old(blockstore.db.data), blockstore.db.data)
  {
    ch, startBlock, panicked := ch0, startBlock0, false;
    if poll.HeadFailed? {
      return;
    }
    var head := new BigInt(poll.head);
    if startBlock == null {
      startBlock := head;
    }

    var endBlock := EndBlock(head, startBlock, blockDelay);
    if endBlock == null || !poll.fetched {
      return;
    }
    ghost var start: nat, end: nat := startBlock.v, endBlock.v;
    StepCompletes(MAX_SPAN, blockDelay.v, chain, st, poll, start, end);
    ch, panicked := ScanWindow(startBlock, endBlock, domainID, blockstore, chain, poll, ch, st);
  }

  /** Handles the logs of a fetched window and, unless the event handler panics, moves past it. */
  method ScanWindow(startBlock: BigInt, endBlock: BigInt, domainID: uint8, blockstore: BlockStore,
                    chain: Chain, poll: Poll, ch0: seq<Message>, ghost st: Scan)
    returns (ch: seq<Message>, panicked: bool)
    requires poll.Head? && startBlock != endBlock && startBlock.v >= 0 && endBlock.v >= 0
    requires st.sent == ch0 && st.stored == StoredBlock(blockstore.db.data, domainID)
    modifies startBlock, blockstore.db
    ensures startBlock.v >= 0
    ensures var r := Completed(chain, st, poll, old(startBlock.v), old(endBlock.v));
            && ch == r.sent && panicked == r.crashed
            && Some(startBlock.v) == r.pos
            && StoredBlock(blockstore.db.data, domainID) == r.stored
    ensures OthersUnchanged(domainID, old(blockstore.db.data), blockstore.db.data)
  {
    ch, panicked := HandleLogs(Logs(chain, startBlock.v, endBlock.v + 1), poll.handle, ch0);
    if panicked {
      return;
    }
    FinishWindow(startBlock, endBlock, domainID, blockstore, poll.saved);
  }

  /** Stores the window's end and moves the start block right behind it. */
  method FinishWindow(startBlock: BigInt, endBlock: BigInt, domainID: uint8, blockstore: BlockStore, saved: bool)
    requires endBlock.v >= 0 && startBlock != endBlock
    modifies startBlock, blockstore.db
    ensures startBlock.v == endBlock.v + 1
    ensures StoredBlock(blockstore.db.data, domainID)
            == if saved then endBlock.v else StoredBlock(old(blockstore.db.data), domainID)
    ensures OthersUnchanged(domainID, old(blockstore.db.data), blockstore.db.data)
  {
    var _ := blockstore.StoreBlock(endBlock, domainID, saved);
    var one := new BigInt(1);
    startBlock.Add(endBlock, one);
  }

  /** The last block of the window: the latest confirmed one, or 99 blocks past the start; none
      while the head is not blockDelay ahead. */
  method EndBlock(head: BigInt, startBlock: BigInt, blockDelay: BigInt) returns (endBlock: BigInt?)
    ensures endBlock == null <==> head.v - startBlock.v < blockDelay.v
    ensures endBlock != null ==> fresh(endBlock)
    ensures endBlock != null ==>
              endBlock.v == if head.v - blockDelay.v - startBlock.v > 99 then startBlock.v + 99
                            else head.v - blockDelay.v
  {
    var distance := new BigInt(0);
    distance.Sub(head, startBlock);
    var tooEarly := distance.Cmp(blockDelay);
    if tooEarly == -1 {
      return null;
    }
    endBlock := new BigInt(0);
    endBlock.Sub(head, blockDelay);
    var length := new BigInt(0);
    length.Sub(endBlock, startBlock);
    var maxSpan := new BigInt(MAX_SPAN);
    var tooLong := length.Cmp(maxSpan);
    if tooLong == 1 {
      endBlock.Add(startBlock, maxSpan);
    }
  }

  /** Hands every log to the event handler and sends the messages it returns; a panic of the handler
      is not recovered from. */
  method HandleLogs(logs: seq<Deposit>, handle: EventHandler, ch0: seq<Message>)
    returns (ch: seq<Message>, panicked: bool)
    ensures ch == ch0 + Successes(Calls(logs, handle))
    ensures panicked <==> Panicked(Calls(logs, handle))
  {
    ghost var calls := Calls(logs, handle);
    PanickedExactly(logs, handle);
    ch, panicked := ch0, false;
    var j := 0;
    while j < |logs|
      invariant 0 <= j <= Survived(logs, handle)
      invariant ch == ch0 + Successes(calls[..j]) && !panicked
    {
      SuccessesSnoc(calls, j);
      var m := handle(logs[j]);
      assert calls[j] == Call(logs[j], m);
      if m.Panic? {
        assert calls[..j + 1] == calls;
        return ch, true;
      }
      if m.Ok? {
        ch := ch + [m.value];
      }
      j := j + 1;
    }
    assert calls[..j] == calls;
  }
}
