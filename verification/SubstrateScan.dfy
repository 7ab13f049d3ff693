/** The block scanner of a Substrate chain as a function of its answers: one block per iteration. */
module SubstrateScan {
  import opened Bytes
  import opened Messages

  type ChainEvent = seq<byte>

  /** What the subscribed event handlers answer in one iteration: a message, or none for an error. */
  type Answers = (TransferType, ChainEvent) -> Option<Message>

  /** The events of a block: three kinds of transfers, and how often the runtime code was updated. */
  datatype Events = Events(fungible: seq<ChainEvent>, nonFungible: seq<ChainEvent>, generic: seq<ChainEvent>,
                           codeUpdated: nat) {
    function Of(kind: TransferType): seq<ChainEvent> {
      match kind
      case FungibleTransfer => fungible
      case NonFungibleTransfer => nonFungible
      case GenericTransfer => generic
    }
  }

  type Chain = nat -> Events

  /** The answers of one iteration: the header, whether the hash and the events of the block were
      obtained, what the event handlers answer, whether the metadata could be updated, and whether the
      block store accepts. */
  datatype Poll =
    | HeaderFailed
    | Header(number: nat, hashed: bool, fetched: bool, handle: Answers, updated: bool, saved: bool)

  /** A block gone through, with the answers it met and what it contributed. */
  datatype Completed = Completed(block: nat, handle: Answers, messages: seq<Message>)

  /** The next block, the blocks gone through, all messages sent, and the stored block. */
  datatype Scan = Scan(pos: Option<nat>, completed: seq<Completed>, sent: seq<Message>, stored: nat)

  function HandleAll(handle: Answers, kind: TransferType, events: seq<ChainEvent>): Option<seq<Message>> {
    if events == [] then Some([])
    else
      var n := |events| - 1;
      var before, last := HandleAll(handle, kind, events[..n]), handle(kind, events[n]);
      if before.None? || last.None? then None else Some(before.value + [last.value])
  }

  /** Events of a kind nobody subscribed to contribute nothing. */
  function HandleKind(kinds: set<TransferType>, handle: Answers, kind: TransferType, events: seq<ChainEvent>)
    : Option<seq<Message>>
  {
    if kind in kinds then HandleAll(handle, kind, events) else Some([])
  }

  /** All messages of a block: fungible, then non-fungible, then generic transfers. */
  function AllMessages(kinds: set<TransferType>, handle: Answers, events: Events): Option<seq<Message>> {
    var f := HandleKind(kinds, handle, FungibleTransfer, events.fungible);
    var n := HandleKind(kinds, handle, NonFungibleTransfer, events.nonFungible);
    var g := HandleKind(kinds, handle, GenericTransfer, events.generic);
    if f.None? || n.None? || g.None? then None else Some(f.value + n.value + g.value)
  }

  /** An event that cannot be handled, or a metadata update that fails, loses the whole block. */
  function HandleEvents(kinds: set<TransferType>, handle: Answers, events: Events, updated: bool)
    : Option<seq<Message>>
  {
    if events.codeUpdated > 0 && !updated then None else AllMessages(kinds, handle, events)
  }

  function Contribution(kinds: set<TransferType>, handle: Answers, events: Events, updated: bool): seq<Message> {
    var r := HandleEvents(kinds, handle, events, updated);
    if r.Some? then r.value else []
  }

  function Start(pos: Option<nat>, number: nat): nat {
    if pos.Some? then pos.value else number
  }

  function Step(kinds: set<TransferType>, chain: Chain, st: Scan, p: Poll): Scan {
    if p.HeaderFailed? then st
    else
      var block := Start(st.pos, p.number);
      if block > p.number || !p.hashed || !p.fetched then st.(pos := Some(block))
      else
        var messages := Contribution(kinds, p.handle, chain(block), p.updated);
        Scan(Some(block + 1), st.completed + [Completed(block, p.handle, messages)], st.sent + messages,
             if p.saved then block else st.stored)
  }

  function Run(kinds: set<TransferType>, chain: Chain, st: Scan, polls: seq<Poll>): Scan {
    if polls == [] then st
    else Step(kinds, chain, Run(kinds, chain, st, polls[..|polls| - 1]), polls[|polls| - 1])
  }

  /** Handling a list of events succeeds exactly when every event is handled, and then keeps their order. */
  lemma {:induction false} HandleAllExact(handle: Answers, kind: TransferType, events: seq<ChainEvent>)
    ensures HandleAll(handle, kind, events).Some? <==> forall i :: 0 <= i < |events| ==> handle(kind, events[i]).Some?
    ensures HandleAll(handle, kind, events).Some? ==>
              var messages := HandleAll(handle, kind, events).value;
              && |messages| == |events|
              && forall i :: 0 <= i < |events| ==> handle(kind, events[i]) == Some(messages[i])
  {
    if events != [] {
      var n := |events| - 1;
      HandleAllExact(handle, kind, events[..n]);
      assert forall i :: 0 <= i < n ==> events[..n][i] == events[i];
      assert handle(kind, events[n]).None? ==> !forall i :: 0 <= i < |events| ==> handle(kind, events[i]).Some?;
    }
  }

  /** A failure before the end is a failure of the whole. */
  lemma {:induction false} HandleAllPrefix(handle: Answers, kind: TransferType, events: seq<ChainEvent>, k: nat)
    requires k <= |events| && HandleAll(handle, kind, events[..k]).None?
    ensures HandleAll(handle, kind, events).None?
  {
    if k == |events| {
      assert events[..k] == events;
    } else {
      assert events[..|events| - 1][..k] == events[..k];
      HandleAllPrefix(handle, kind, events[..|events| - 1], k);
    }
  }

  function Concat(completed: seq<Completed>): seq<Message> {
    if completed == [] then []
    else Concat(completed[..|completed| - 1]) + completed[|completed| - 1].messages
  }

  /** The answers to these events are the messages from position `at` on. */
  ghost predicate AnswersAt(handle: Answers, kind: TransferType, events: seq<ChainEvent>, n: nat,
                            messages: seq<Message>, at: nat)
  {
    && n <= |events| && at + n <= |messages|
    && forall i :: 0 <= i < n ==> handle(kind, events[i]) == Some(messages[at + i])
  }

  /** One message for every event of a subscribed kind, in its handler's words: those of the fungible
      transfers, then of the non-fungible ones, then of the generic ones, each in the order of the events. */
  ghost predicate InTurn(kinds: set<TransferType>, handle: Answers, events: Events, messages: seq<Message>) {
    var f := if FungibleTransfer in kinds then |events.fungible| else 0;
    var n := if NonFungibleTransfer in kinds then |events.nonFungible| else 0;
    var g := if GenericTransfer in kinds then |events.generic| else 0;
    && |messages| == f + n + g
    && AnswersAt(handle, FungibleTransfer, events.fungible, f, messages, 0)
    && AnswersAt(handle, NonFungibleTransfer, events.nonFungible, n, messages, f)
    && AnswersAt(handle, GenericTransfer, events.generic, g, messages, f + n)
  }

  lemma KindAnswers(kinds: set<TransferType>, handle: Answers, kind: TransferType, events: seq<ChainEvent>)
    requires HandleKind(kinds, handle, kind, events).Some?
    ensures var messages := HandleKind(kinds, handle, kind, events).value;
            |messages| == (if kind in kinds then |events| else 0)
            && AnswersAt(handle, kind, events, |messages|, messages, 0)
  {
    HandleAllExact(handle, kind, events);
  }

  lemma AnswersWithin(handle: Answers, kind: TransferType, events: seq<ChainEvent>, a: seq<Message>, b: seq<Message>,
                      c: seq<Message>)
    requires AnswersAt(handle, kind, events, |b|, b, 0)
    ensures AnswersAt(handle, kind, events, |b|, a + b + c, |a|)
  {
    forall i | 0 <= i < |b|
      ensures handle(kind, events[i]) == Some((a + b + c)[|a| + i])
    {
      assert (a + b + c)[|a| + i] == b[i];
    }
  }

  /** The messages of a block, when they can be had. */
  lemma AllMessagesExact(kinds: set<TransferType>, handle: Answers, events: Events)
    requires AllMessages(kinds, handle, events).Some?
    ensures InTurn(kinds, handle, events, AllMessages(kinds, handle, events).value)
  {
    KindAnswers(kinds, handle, FungibleTransfer, events.fungible);
    KindAnswers(kinds, handle, NonFungibleTransfer, events.nonFungible);
    KindAnswers(kinds, handle, GenericTransfer, events.generic);
    var f := HandleKind(kinds, handle, FungibleTransfer, events.fungible).value;
    var n := HandleKind(kinds, handle, NonFungibleTransfer, events.nonFungible).value;
    var g := HandleKind(kinds, handle, GenericTransfer, events.generic).value;
    assert [] + f + (n + g) == f + n + g && f + n + g + [] == f + n + g;
    AnswersWithin(handle, FungibleTransfer, events.fungible, [], f, n + g);
    AnswersWithin(handle, NonFungibleTransfer, events.nonFungible, f, n, g);
    AnswersWithin(handle, GenericTransfer, events.generic, f + n, g, []);
  }

  /** There is only one such sequence. */
  lemma InTurnUnique(kinds: set<TransferType>, handle: Answers, events: Events, a: seq<Message>, b: seq<Message>)
    requires InTurn(kinds, handle, events, a) && InTurn(kinds, handle, events, b)
    ensures a == b
  {
    var f := if FungibleTransfer in kinds then |events.fungible| else 0;
    var n := if NonFungibleTransfer in kinds then |events.nonFungible| else 0;
    forall i | 0 <= i < |a|
      ensures a[i] == b[i]
    {
      if i < f {
        assert Some(a[i]) == handle(FungibleTransfer, events.fungible[i]);
      } else if i < f + n {
        assert Some(a[i]) == handle(NonFungibleTransfer, events.nonFungible[i - f]);
      } else {
        assert Some(a[i]) == handle(GenericTransfer, events.generic[i - f - n]);
      }
    }
  }

  /** All messages of the block, or none at all. */
  ghost predicate AllOrNothing(kinds: set<TransferType>, chain: Chain, c: Completed) {
    c.messages == [] || InTurn(kinds, c.handle, chain(c.block), c.messages)
  }

  /** The blocks gone through are consecutive, up to right before `end`, each with all its messages or none. */
  ghost predicate Consecutive(kinds: set<TransferType>, chain: Chain, completed: seq<Completed>, end: nat) {
    && |completed| <= end
    && forall i :: 0 <= i < |completed| ==>
         completed[i].block == end - |completed| + i && AllOrNothing(kinds, chain, completed[i])
  }

  ghost predicate Faithful(kinds: set<TransferType>, chain: Chain, before: nat, r: Scan) {
    && (r.pos.None? ==> r.completed == [])
    && Consecutive(kinds, chain, r.completed, if r.pos.Some? then r.pos.value else 0)
    && r.sent == Concat(r.completed)
    && (r.stored == before
        || (r.pos.Some? && r.pos.value - |r.completed| <= r.stored < r.pos.value))
  }

  lemma ConcatSnoc(completed: seq<Completed>, c: Completed)
    ensures Concat(completed + [c]) == Concat(completed) + c.messages
  {
    assert (completed + [c])[..|completed|] == completed;
  }

  lemma ContributesAllOrNothing(kinds: set<TransferType>, chain: Chain, block: nat, handle: Answers, updated: bool)
    ensures AllOrNothing(kinds, chain, Completed(block, handle, Contribution(kinds, handle, chain(block), updated)))
  {
    if HandleEvents(kinds, handle, chain(block), updated).Some? {
      AllMessagesExact(kinds, handle, chain(block));
    }
  }

  lemma StepFaithful(kinds: set<TransferType>, chain: Chain, before: nat, r: Scan, p: Poll)
    requires Faithful(kinds, chain, before, r)
    ensures Faithful(kinds, chain, before, Step(kinds, chain, r, p))
  {
    if p.Header? {
      var block := Start(r.pos, p.number);
      if block <= p.number && p.hashed && p.fetched {
        BlockFaithful(kinds, chain, before, r, block, Contribution(kinds, p.handle, chain(block), p.updated), p);
      } else {
        WaitingFaithful(kinds, chain, before, r, block);
        assert Step(kinds, chain, r, p) == r.(pos := Some(block));
      }
    }
  }

  /** What one iteration does that goes through a block. */
  lemma StepTakes(kinds: set<TransferType>, chain: Chain, st: Scan, p: Poll, block: nat)
    requires p.Header? && block == Start(st.pos, p.number) <= p.number && p.hashed && p.fetched
    ensures var messages, r := Contribution(kinds, p.handle, chain(block), p.updated), Step(kinds, chain, st, p);
            r == Scan(Some(block + 1), st.completed + [Completed(block, p.handle, messages)], st.sent + messages,
                      if p.saved then block else st.stored)
  {
  }

  lemma BlockFaithful(kinds: set<TransferType>, chain: Chain, before: nat, r: Scan, block: nat,
                      messages: seq<Message>, p: Poll)
    requires Faithful(kinds, chain, before, r) && p.Header? && block == Start(r.pos, p.number)
    requires block <= p.number && p.hashed && p.fetched
    requires messages == Contribution(kinds, p.handle, chain(block), p.updated)
    ensures Faithful(kinds, chain, before, Step(kinds, chain, r, p))
  {
    var c := Completed(block, p.handle, messages);
    ConcatSnoc(r.completed, c);
    ContributesAllOrNothing(kinds, chain, block, p.handle, p.updated);
    OneMoreCompleted(kinds, chain, before, r, c, p.saved);
    StepTakes(kinds, chain, r, p, block);
  }

  lemma WaitingFaithful(kinds: set<TransferType>, chain: Chain, before: nat, r: Scan, block: nat)
    requires Faithful(kinds, chain, before, r) && (r.pos.Some? ==> block == r.pos.value)
    ensures Faithful(kinds, chain, before, r.(pos := Some(block)))
  {
  }

  lemma ConsecutiveSnoc(kinds: set<TransferType>, chain: Chain, completed: seq<Completed>, c: Completed)
    requires Consecutive(kinds, chain, completed, c.block) && AllOrNothing(kinds, chain, c)
    ensures Consecutive(kinds, chain, completed + [c], c.block + 1)
  {
  }

  lemma OneMoreCompleted(kinds: set<TransferType>, chain: Chain, before: nat, r: Scan, c: Completed, saved: bool)
    requires Faithful(kinds, chain, before, r) && AllOrNothing(kinds, chain, c)
    requires r.pos.Some? ==> c.block == r.pos.value
    requires Concat(r.completed + [c]) == Concat(r.completed) + c.messages
    ensures Faithful(kinds, chain, before,
                     Scan(Some(c.block + 1), r.completed + [c], r.sent + c.messages,
                          if saved then c.block else r.stored))
  {
    assert Consecutive(kinds, chain, r.completed, c.block);
    ConsecutiveSnoc(kinds, chain, r.completed, c);
  }

  /** Within a launch the blocks gone through are consecutive and end right before the position, each
      once and in order; every one contributes all its messages or none, and nothing else is sent. */
  lemma {:induction false} ScannedInOrder(kinds: set<TransferType>, chain: Chain, st: Scan, polls: seq<Poll>)
    requires st.completed == [] && st.sent == []
    ensures Faithful(kinds, chain, st.stored, Run(kinds, chain, st, polls))
  {
    if polls != [] {
      var n := |polls| - 1;
      ScannedInOrder(kinds, chain, st, polls[..n]);
      StepFaithful(kinds, chain, st.stored, Run(kinds, chain, st, polls[..n]), polls[n]);
    }
  }

  /** A launch that was given a block begins with it. */
  lemma {:induction false} StartsWhereTold(kinds: set<TransferType>, chain: Chain, st: Scan, polls: seq<Poll>)
    requires st.completed == [] && st.pos.Some?
    ensures var r := Run(kinds, chain, st, polls);
            r.pos.Some? && r.pos.value == st.pos.value + |r.completed|
  {
    if polls != [] {
      StartsWhereTold(kinds, chain, st, polls[..|polls| - 1]);
    }
  }

  // ---------- when a block is lost ----------

  /** An event of a subscribed kind that its handler answers with an error. */
  ghost predicate Rejected(kinds: set<TransferType>, handle: Answers, events: Events, kind: TransferType, i: nat) {
    kind in kinds && i < |events.Of(kind)| && handle(kind, events.Of(kind)[i]).None?
  }

  ghost predicate AnyRejected(kinds: set<TransferType>, handle: Answers, events: Events, kind: TransferType) {
    exists i: nat :: Rejected(kinds, handle, events, kind, i)
  }

  lemma KindExact(kinds: set<TransferType>, handle: Answers, events: Events, kind: TransferType)
    ensures HandleKind(kinds, handle, kind, events.Of(kind)).None? <==> AnyRejected(kinds, handle, events, kind)
  {
    HandleAllExact(handle, kind, events.Of(kind));
    if kind in kinds && !AnyRejected(kinds, handle, events, kind) {
      forall i: nat | i < |events.Of(kind)|
        ensures handle(kind, events.Of(kind)[i]).Some?
      {
        assert !Rejected(kinds, handle, events, kind, i);
      }
    }
  }

  /** The messages of a block cannot be had exactly when a required metadata update fails, or the handler
      of a subscribed kind rejects one of its events. */
  lemma HandleEventsExact(kinds: set<TransferType>, handle: Answers, events: Events, updated: bool)
    ensures HandleEvents(kinds, handle, events, updated).None?
            <==> (events.codeUpdated > 0 && !updated) || exists kind, i: nat :: Rejected(kinds, handle, events, kind, i)
  {
    KindExact(kinds, handle, events, FungibleTransfer);
    KindExact(kinds, handle, events, NonFungibleTransfer);
    KindExact(kinds, handle, events, GenericTransfer);
    if kind, i: nat :| Rejected(kinds, handle, events, kind, i) {
      assert AnyRejected(kinds, handle, events, kind);
    }
  }

  /** What an iteration that goes through a block sends: nothing at all exactly then, and otherwise the
      message of every event of a subscribed kind. Either way the scan moves on. */
  lemma LosesBlockExactly(kinds: set<TransferType>, chain: Chain, st: Scan, p: Poll, block: nat)
    requires p.Header? && block == Start(st.pos, p.number) <= p.number && p.hashed && p.fetched
    ensures var events, r := chain(block), Step(kinds, chain, st, p);
            var lost := (events.codeUpdated > 0 && !p.updated)
                        || exists kind, i: nat :: Rejected(kinds, p.handle, events, kind, i);
            && r.pos == Some(block + 1)
            && (lost ==> r.sent == st.sent)
            && (!lost ==> st.sent <= r.sent && InTurn(kinds, p.handle, events, r.sent[|st.sent|..]))
  {
    HandleEventsExact(kinds, p.handle, chain(block), p.updated);
    StepTakes(kinds, chain, st, p, block);
    var r := Step(kinds, chain, st, p);
    if HandleEvents(kinds, p.handle, chain(block), p.updated).Some? {
      AllMessagesExact(kinds, p.handle, chain(block));
      assert r.sent[|st.sent|..] == AllMessages(kinds, p.handle, chain(block)).value;
    }
  }

  // ---------- only finalised blocks ----------

  /** An iteration whose answers allow going through this block, with the answers it was gone through with. */
  ghost predicate Allows(p: Poll, c: Completed) {
    p.Header? && p.hashed && p.fetched && c.block <= p.number && c.handle == p.handle
  }

  /** Over any run, every block gone through was at or below the finalised header of the iteration that
      went through it. */
  lemma {:induction false} OnlyFinalised(kinds: set<TransferType>, chain: Chain, st: Scan, polls: seq<Poll>, k: nat)
    requires st.completed == [] && k < |Run(kinds, chain, st, polls).completed|
    ensures exists i :: 0 <= i < |polls| && Allows(polls[i], Run(kinds, chain, st, polls).completed[k])
  {
    var n := |polls| - 1;
    var before := Run(kinds, chain, st, polls[..n]);
    if k < |before.completed| {
      OnlyFinalised(kinds, chain, st, polls[..n], k);
      var i :| 0 <= i < n && Allows(polls[..n][i], before.completed[k]);
      assert Allows(polls[i], Run(kinds, chain, st, polls).completed[k]);
    } else {
      assert Allows(polls[n], Run(kinds, chain, st, polls).completed[k]);
    }
  }

  /** It happens: behind one event that cannot be handled the messages of the whole block are lost,
      and the scan is past it. */
  lemma OneBadEventLosesBlock(kinds: set<TransferType>, chain: Chain, st: Scan, p: Poll,
                             good: ChainEvent, bad: ChainEvent)
    requires FungibleTransfer in kinds && st.pos.Some? && chain(st.pos.value) == Events([good, bad], [], [], 0)
    requires p.Header? && st.pos.value <= p.number && p.hashed && p.fetched
    requires p.handle(FungibleTransfer, good).Some? && p.handle(FungibleTransfer, bad).None?
    ensures var r := Step(kinds, chain, st, p);
            r.sent == st.sent && r.pos == Some(st.pos.value + 1)
  {
    assert Rejected(kinds, p.handle, chain(st.pos.value), FungibleTransfer, 1);
    LosesBlockExactly(kinds, chain, st, p, st.pos.value);
  }
}
