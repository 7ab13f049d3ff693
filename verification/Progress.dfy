/**
 What a run can still achieve: exactly which deposits the relayer can still receive, and exactly
 which blocks the scan can complete and pass, when there are poison deposits, ones that the event
 handler panics on at every call.
 */
module Progress {
  import opened BlockScan
  import opened Bytes
  import opened CrashRecovery
  import opened EventHandlers
  import opened Handover
  import opened Messages

  /** In this move the event handler, if it is exchanged at all, panics on every poison deposit. */
  ghost predicate MoveRespects(m: Move, poison: Deposit -> bool) {
    m.Listener? && m.event.Answer? && m.event.poll.Head? ==>
      forall d: Deposit :: poison(d) ==> m.event.poll.handle(d).Panic?
  }

  ghost predicate Respects(moves: seq<Move>, poison: Deposit -> bool) {
    forall k :: 0 <= k < |moves| ==> MoveRespects(moves[k], poison)
  }

  /** All heads seen are this one. */
  ghost predicate SeesHead(moves: seq<Move>, head: nat) {
    forall k :: 0 <= k < |moves| ==> MoveSeesHead(moves[k], head)
  }

  ghost predicate MoveSeesHead(m: Move, head: nat) {
    m.Listener? && m.event.Answer? && m.event.poll.Head? ==> m.event.poll.head == head
  }

  /** The logs from block `from` on, up to and including this one. */
  function LogsThrough(chain: Chain, from: nat, id: LogId): seq<Deposit>
    requires id.1 < |chain(id.0)|
  {
    Logs(chain, from, id.0) + chain(id.0)[..id.1 + 1]
  }

  // ---------- only if: what was handled is not poison ----------

  ghost predicate Wholesome(chain: Chain, s: State, poison: Deposit -> bool) {
    && (forall id :: id in s.w.handled ==> id.1 < |chain(id.0)| && !poison(chain(id.0)[id.1]))
    && (s.w.process.Sending? ==> forall d: Deposit :: poison(d) ==> s.w.process.handle(d).Panic?)
  }

  lemma DoKeepsWholesome(cfg: Config, chain: Chain, s: State, m: Move, poison: Deposit -> bool)
    requires Wholesome(chain, s, poison) && MoveRespects(m, poison)
    ensures Wholesome(chain, Do(cfg, chain, s, m), poison)
  {
    if HasNext(chain, s.w) {
      LogAt(chain, s.w.process.start, s.w.process.end + 1, s.w.process.done);
    }
  }

  lemma {:induction false} RunIsWholesome(cfg: Config, chain: Chain, initial: nat, moves: seq<Move>,
                                          poison: Deposit -> bool)
    requires Respects(moves, poison)
    ensures Wholesome(chain, DoAll(cfg, chain, Begin(initial), moves), poison)
  {
    if moves != [] {
      var n := |moves| - 1;
      RunIsWholesome(cfg, chain, initial, moves[..n], poison);
      DoKeepsWholesome(cfg, chain, DoAll(cfg, chain, Begin(initial), moves[..n]), moves[n], poison);
    }
  }

  /** Blocks whose logs were all handled are clear of poison. */
  lemma HandledIsClear(chain: Chain, s: State, from: nat, until: nat, poison: Deposit -> bool)
    requires Wholesome(chain, s, poison)
    requires forall b: nat :: from <= b < until ==> AllHandled(chain, s.w, b)
    ensures Clear(Logs(chain, from, until), poison)
  {
    var logs := Logs(chain, from, until);
    forall k | 0 <= k < |logs|
      ensures !poison(logs[k])
    {
      LogIdAt(chain, from, until, k);
      LogAt(chain, from, until, k);
      var id := LogIds(chain, from, until)[k];
      assert AllHandled(chain, s.w, id.0);
    }
  }

  /** A log that was handled, and the ones in front of it in its block, are not poison. */
  lemma HandledInBlock(cfg: Config, chain: Chain, initial: nat, moves: seq<Move>, id: LogId, poison: Deposit -> bool)
    requires Respects(moves, poison)
    requires id in DoAll(cfg, chain, Begin(initial), moves).w.handled
    ensures id.1 < |chain(id.0)| && Clear(chain(id.0)[..id.1 + 1], poison)
  {
    var s := DoAll(cfg, chain, Begin(initial), moves);
    RunIsWholesome(cfg, chain, initial, moves, poison);
    var events := ListenerRuns(cfg, chain, initial, moves);
    RunIsSolid(cfg, chain, initial, events);
    var logs := chain(id.0)[..id.1 + 1];
    forall j: nat | j < |logs|
      ensures !poison(logs[j])
    {
      assert (id.0, j) in s.w.handled;
    }
  }

  /** When a log was handled, all logs from the first start through it were, and none is poison. */
  lemma HandledThrough(cfg: Config, chain: Chain, initial: nat, moves: seq<Move>, id: LogId, poison: Deposit -> bool)
    requires !cfg.latest && Respects(moves, poison)
    requires id in DoAll(cfg, chain, Begin(initial), moves).w.handled
    ensures id.1 < |chain(id.0)| && LaunchPos(cfg, initial).value <= id.0
    ensures Clear(LogsThrough(chain, LaunchPos(cfg, initial).value, id), poison)
  {
    var events := ListenerRuns(cfg, chain, initial, moves);
    BlocksInFront(cfg, chain, initial, events, id);
    RunIsWholesome(cfg, chain, initial, moves, poison);
    var launch := LaunchPos(cfg, initial).value;
    HandledIsClear(chain, DoAll(cfg, chain, Begin(initial), moves), launch, id.0, poison);
    HandledInBlock(cfg, chain, initial, moves, id, poison);
    ClearConcat(Logs(chain, launch, id.0), chain(id.0)[..id.1 + 1], poison);
  }

  lemma BlocksInFront(cfg: Config, chain: Chain, initial: nat, events: seq<Event>, id: LogId)
    requires !cfg.latest && id in CrashRecovery.Run(cfg, chain, Initial(initial), events).handled
    ensures LaunchPos(cfg, initial).value <= id.0
    ensures forall b: nat :: LaunchPos(cfg, initial).value <= b < id.0 ==>
              AllHandled(chain, CrashRecovery.Run(cfg, chain, Initial(initial), events), b)
  {
    var w := CrashRecovery.Run(cfg, chain, Initial(initial), events);
    var end := RunKeepsInv(cfg, chain, initial, events);
    assert InFront(chain, w.first.value, end, id);
  }

  /** Fewer blocks in front of a log make fewer logs. */
  lemma ClearLater(chain: Chain, from: nat, later: nat, id: LogId, poison: Deposit -> bool)
    requires from <= later <= id.0 && id.1 < |chain(id.0)|
    requires Clear(LogsThrough(chain, from, id), poison)
    ensures Clear(LogsThrough(chain, later, id), poison)
  {
    LogsSplit(chain, from, later, id.0);
    var a, b, c := Logs(chain, from, later), Logs(chain, later, id.0), chain(id.0)[..id.1 + 1];
    Assoc(a, b, c);
    ClearConcat(a, b + c, poison);
  }

  // ---------- if: a run that gets there ----------

  lemma {:induction false} DoAllConcat(cfg: Config, chain: Chain, s: State, a: seq<Move>, b: seq<Move>)
    ensures DoAll(cfg, chain, s, a + b) == DoAll(cfg, chain, DoAll(cfg, chain, s, a), b)
  {
    if b == [] {
      assert a + b == a;
    } else {
      var n := |b| - 1;
      DoAllConcat(cfg, chain, s, a, b[..n]);
      assert (a + b)[..|a + b| - 1] == a + b[..n];
    }
  }

  lemma DoOne(cfg: Config, chain: Chain, s: State, m: Move)
    ensures DoAll(cfg, chain, s, [m]) == Do(cfg, chain, s, m)
  {
    assert [m][..0] == [];
    assert DoAll(cfg, chain, s, [m][..0]) == s;
  }

  /** An event handler that accepts everything but poison. */
  function Accepting(poison: Deposit -> bool): EventHandler {
    (d: Deposit) =>
      if poison(d) then Panic
      else Ok(Message(d.txHash, d.block, d.source, d.destination, d.nonce, d.resourceId, [], GenericTransfer))
  }

  /** n times: hand over the next log, and the relayer receives its message. */
  function Deliveries(n: nat): seq<Move> {
    if n == 0 then [] else Deliveries(n - 1) + [Deliver, Receive]
  }

  function Opening(head: nat, poison: Deposit -> bool): seq<Move> {
    [Listener(Answer(Head(head, true, Accepting(poison), false)))]
  }

  const CLOSING: seq<Move> := [Listener(Handle), Listener(Save(false)), Listener(Advance)]

  /** Poison panics at every call, and all heads are the same one. */
  ghost predicate Admissible(moves: seq<Move>, head: nat, poison: Deposit -> bool) {
    Respects(moves, poison) && SeesHead(moves, head)
  }

  /** Such runs in which no store succeeds either. */
  ghost predicate Scripted(moves: seq<Move>, head: nat, poison: Deposit -> bool) {
    Admissible(moves, head, poison) && forall k :: 0 <= k < |moves| ==> !IsSave(moves[k])
  }

  ghost predicate IsSave(m: Move) {
    m.Listener? && m.event.Save? && m.event.ok
  }

  lemma {:induction false} NothingSaved(cfg: Config, chain: Chain, s: State, moves: seq<Move>)
    requires forall k :: 0 <= k < |moves| ==> !IsSave(moves[k])
    ensures DoAll(cfg, chain, s, moves).w.stored == s.w.stored
  {
    if moves != [] {
      NothingSaved(cfg, chain, s, moves[..|moves| - 1]);
    }
  }

  lemma ScriptedConcat(a: seq<Move>, b: seq<Move>, head: nat, poison: Deposit -> bool)
    requires Scripted(a, head, poison) && Scripted(b, head, poison)
    ensures Scripted(a + b, head, poison)
  {
  }

  lemma {:induction false} DeliveriesScripted(n: nat, head: nat, poison: Deposit -> bool)
    ensures Scripted(Deliveries(n), head, poison)
  {
    if n != 0 {
      DeliveriesScripted(n - 1, head, poison);
      ScriptedConcat(Deliveries(n - 1), [Deliver, Receive], head, poison);
    }
  }

  /** Receipts stay, and so does how often a log was received. */
  lemma {:induction false} ReceiptsGrow(cfg: Config, chain: Chain, s: State, moves: seq<Move>)
    ensures s.receipts <= DoAll(cfg, chain, s, moves).receipts
  {
    if moves != [] {
      ReceiptsGrow(cfg, chain, s, moves[..|moves| - 1]);
      DoReceipts(cfg, chain, DoAll(cfg, chain, s, moves[..|moves| - 1]), moves[|moves| - 1]);
    }
  }

  lemma TimesGrow(cfg: Config, chain: Chain, s: State, moves: seq<Move>, id: LogId)
    ensures Times(s, id) <= Times(DoAll(cfg, chain, s, moves), id)
  {
    var r := DoAll(cfg, chain, s, moves);
    ReceiptsGrow(cfg, chain, s, moves);
    assert r.receipts == s.receipts + r.receipts[|s.receipts|..];
  }

  /** The next log handed over and received. */
  lemma DeliverOne(cfg: Config, chain: Chain, s: State, process: Process, logs: seq<Deposit>, ids: seq<LogId>, n: nat)
    requires s.w.process == process && InWindow(chain, s.w, logs, ids) && s.held.None?
    requires process.done == n - 1 && n <= |logs| && process.handle(logs[n - 1]).Ok?
    ensures var r := DoAll(cfg, chain, s, [Deliver, Receive]);
            r.w.process == process.(done := n) && r.held.None? && r.receipts == s.receipts + [ids[n - 1]]
  {
    assert [Deliver, Receive] == [Deliver] + [Receive];
    DoAllConcat(cfg, chain, s, [Deliver], [Receive]);
    DoOne(cfg, chain, s, Deliver);
    DoOne(cfg, chain, Do(cfg, chain, s, Deliver), Receive);
  }

  /** How often logs are received after that many of a window have been handed over. */
  lemma {:induction false} Delivered(cfg: Config, chain: Chain, s: State, logs: seq<Deposit>, ids: seq<LogId>, n: nat)
    requires InWindow(chain, s.w, logs, ids) && s.held.None? && s.w.process.done == 0
    requires n <= |logs| && forall i :: 0 <= i < n ==> s.w.process.handle(logs[i]).Ok?
    ensures var r := DoAll(cfg, chain, s, Deliveries(n));
            && r.w.process == s.w.process.(done := n) && r.held.None?
            && r.receipts == s.receipts + ids[..n]
  {
    if n != 0 {
      Delivered(cfg, chain, s, logs, ids, n - 1);
      DoAllConcat(cfg, chain, s, Deliveries(n - 1), [Deliver, Receive]);
      DeliverOne(cfg, chain, DoAll(cfg, chain, s, Deliveries(n - 1)), s.w.process.(done := n - 1), logs, ids, n);
      TakeOneMore(s.receipts, ids, n);
    } else {
      assert s.receipts + ids[..0] == s.receipts;
    }
  }

  lemma TakeOneMore(before: seq<LogId>, ids: seq<LogId>, n: nat)
    requires 0 < n <= |ids|
    ensures before + ids[..n - 1] + [ids[n - 1]] == before + ids[..n]
  {
  }

  /** A process that is polling at this position, with nothing held back. */
  ghost predicate PollsAt(s: State, pos: nat) {
    s.w.process == Polling(Some(pos)) && s.held.None?
  }

  function EndOf(cfg: Config, pos: nat, head: nat): nat
    requires pos + cfg.delay <= head
  {
    Min(head - cfg.delay, pos + MAX_SPAN)
  }

  lemma Opened(cfg: Config, chain: Chain, s: State, pos: nat, head: nat, poison: Deposit -> bool)
    requires PollsAt(s, pos) && pos + cfg.delay <= head
    ensures var r := DoAll(cfg, chain, s, Opening(head, poison));
            && r.w.process == Sending(pos, EndOf(cfg, pos, head), 0, Accepting(poison)) && r.held.None?
            && r.receipts == s.receipts
  {
    DoOne(cfg, chain, s, Opening(head, poison)[0]);
  }

  /** The first n logs of the window at this position are received, if none of them is poison. */
  lemma Piece(cfg: Config, chain: Chain, s: State, pos: nat, head: nat, n: nat, poison: Deposit -> bool)
    requires PollsAt(s, pos) && pos + cfg.delay <= head
    requires n <= |Logs(chain, pos, EndOf(cfg, pos, head) + 1)|
    requires Clear(Logs(chain, pos, EndOf(cfg, pos, head) + 1)[..n], poison)
    ensures var r := DoAll(cfg, chain, s, Opening(head, poison) + Deliveries(n));
            && r.w.process == Sending(pos, EndOf(cfg, pos, head), n, Accepting(poison)) && r.held.None?
            && r.receipts == s.receipts + LogIds(chain, pos, EndOf(cfg, pos, head) + 1)[..n]
    ensures Scripted(Opening(head, poison) + Deliveries(n), head, poison)
  {
    var end := EndOf(cfg, pos, head);
    var s1 := DoAll(cfg, chain, s, Opening(head, poison));
    Opened(cfg, chain, s, pos, head, poison);
    Accepted(cfg, chain, s1, Logs(chain, pos, end + 1), LogIds(chain, pos, end + 1), n, poison);
    DoAllConcat(cfg, chain, s, Opening(head, poison), Deliveries(n));
    OpeningScripted(head, n, poison);
  }

  lemma OpeningScripted(head: nat, n: nat, poison: Deposit -> bool)
    ensures Scripted(Opening(head, poison) + Deliveries(n), head, poison)
  {
    DeliveriesScripted(n, head, poison);
    ScriptedConcat(Opening(head, poison), Deliveries(n), head, poison);
  }

  /** Logs that are clear of poison are accepted. */
  lemma Accepted(cfg: Config, chain: Chain, s: State, logs: seq<Deposit>, ids: seq<LogId>, n: nat,
                 poison: Deposit -> bool)
    requires InWindow(chain, s.w, logs, ids) && s.held.None? && s.w.process.done == 0
    requires s.w.process.handle == Accepting(poison) && n <= |logs| && Clear(logs[..n], poison)
    ensures var r := DoAll(cfg, chain, s, Deliveries(n));
            && r.w.process == s.w.process.(done := n) && r.held.None?
            && r.receipts == s.receipts + ids[..n]
  {
    assert forall i :: 0 <= i < n ==> logs[i] == logs[..n][i];
    Delivered(cfg, chain, s, logs, ids, n);
  }

  lemma Finish(cfg: Config, chain: Chain, s: State)
    requires s.w.process.Sending? && s.held.None?
    requires s.w.process.done == |Logs(chain, s.w.process.start, s.w.process.end + 1)|
    ensures PollsAt(DoAll(cfg, chain, s, CLOSING), s.w.process.end + 1)
  {
    var s1 := Do(cfg, chain, s, CLOSING[0]);
    var s2 := Do(cfg, chain, s1, CLOSING[1]);
    var s3 := Do(cfg, chain, s2, CLOSING[2]);
    MovesAreRun(cfg, chain, [s, s1, s2, s3], CLOSING);
  }

  /** The whole window at this position is passed, if it is clear. */
  lemma WholeWindow(cfg: Config, chain: Chain, s: State, pos: nat, head: nat, poison: Deposit -> bool)
    returns (moves: seq<Move>)
    requires PollsAt(s, pos) && pos + cfg.delay <= head
    requires Clear(Logs(chain, pos, EndOf(cfg, pos, head) + 1), poison)
    ensures PollsAt(DoAll(cfg, chain, s, moves), EndOf(cfg, pos, head) + 1)
    ensures Scripted(moves, head, poison)
  {
    var end := EndOf(cfg, pos, head);
    var logs := Logs(chain, pos, end + 1);
    var first := Opening(head, poison) + Deliveries(|logs|);
    var s1 := DoAll(cfg, chain, s, first);
    assert logs[..|logs|] == logs;
    assert s1.w.process == Sending(pos, end, |logs|, Accepting(poison)) && s1.held.None?
           && Scripted(first, head, poison) by {
      Piece(cfg, chain, s, pos, head, |logs|, poison);
    }
    assert PollsAt(DoAll(cfg, chain, s1, CLOSING), end + 1) by { Finish(cfg, chain, s1); }
    moves := first + CLOSING;
    DoAllConcat(cfg, chain, s, first, CLOSING);
    ClosingScripted(head, poison);
    ScriptedConcat(first, CLOSING, head, poison);
  }

  lemma ClosingScripted(head: nat, poison: Deposit -> bool)
    ensures Scripted(CLOSING, head, poison)
  {
  }

  /** Windows are passed until block b is in the next one. */
  lemma {:induction false} WalkTo(cfg: Config, chain: Chain, s: State, pos: nat, head: nat, b: nat,
                                  poison: Deposit -> bool)
    returns (moves: seq<Move>, at: nat)
    requires PollsAt(s, pos) && pos <= b && b + cfg.delay <= head
    requires Clear(Logs(chain, pos, b), poison)
    ensures PollsAt(DoAll(cfg, chain, s, moves), at) && pos <= at <= b <= at + MAX_SPAN
    ensures Scripted(moves, head, poison)
    decreases b - pos
  {
    if b <= pos + MAX_SPAN {
      moves, at := [], pos;
    } else {
      var next := pos + MAX_SPAN + 1;
      LogsSplit(chain, pos, next, b);
      ClearConcat(Logs(chain, pos, next), Logs(chain, next, b), poison);
      var first := WholeWindow(cfg, chain, s, pos, head, poison);
      var rest;
      rest, at := WalkTo(cfg, chain, DoAll(cfg, chain, s, first), next, head, b, poison);
      moves := first + rest;
      DoAllConcat(cfg, chain, s, first, rest);
      ScriptedConcat(first, rest, head, poison);
    }
  }

  const RESTART: seq<Move> := [Listener(Crash), Listener(Launch(true))]

  /** A restart polls at the block that store and configuration tell. */
  lemma Restarted(cfg: Config, chain: Chain, s: State)
    requires !cfg.latest
    ensures PollsAt(DoAll(cfg, chain, s, RESTART), LaunchPos(cfg, s.w.stored).value)
  {
    var s1 := Do(cfg, chain, s, RESTART[0]);
    var s2 := Do(cfg, chain, s1, RESTART[1]);
    MovesAreRun(cfg, chain, [s, s1, s2], RESTART);
  }

  /** From any state on, a restart can lead through all logs in front of block b, until it is in the next window. */
  lemma Restart(cfg: Config, chain: Chain, s: State, head: nat, b: nat, poison: Deposit -> bool)
    returns (moves: seq<Move>, at: nat)
    requires !cfg.latest && LaunchPos(cfg, s.w.stored).value <= b && b + cfg.delay <= head
    requires Clear(Logs(chain, LaunchPos(cfg, s.w.stored).value, b), poison)
    ensures PollsAt(DoAll(cfg, chain, s, moves), at) && LaunchPos(cfg, s.w.stored).value <= at <= b <= at + MAX_SPAN
    ensures Scripted(moves, head, poison)
  {
    Restarted(cfg, chain, s);
    var walk;
    walk, at := WalkTo(cfg, chain, DoAll(cfg, chain, s, RESTART), LaunchPos(cfg, s.w.stored).value, head, b, poison);
    moves := RESTART + walk;
    DoAllConcat(cfg, chain, s, RESTART, walk);
    ScriptedConcat(RESTART, walk, head, poison);
  }

  /** The logs of a window through a log in it are the first ones of the window. */
  lemma ThroughIsPrefix(chain: Chain, from: nat, until: nat, id: LogId)
    requires from <= id.0 < until && id.1 < |chain(id.0)|
    ensures var n := |LogsThrough(chain, from, id)|;
            && 0 < n <= |LogIds(chain, from, until)| && LogIds(chain, from, until)[n - 1] == id
            && LogsThrough(chain, from, id) == Logs(chain, from, until)[..n]
  {
    LogsSplit(chain, from, id.0 + 1, until);
    assert Logs(chain, from, id.0 + 1) == Logs(chain, from, id.0) + chain(id.0);
    LogIdOf(chain, from, until, id.0, id.1);
  }

  /** One more receipt, at the end of others. */
  lemma OneMoreTime(s: State, r: State, ids: seq<LogId>, id: LogId)
    requires r.receipts == s.receipts + ids && id in ids
    ensures Times(r, id) > Times(s, id)
  {
    assert id in multiset(ids);
  }

  /** From there, the rest of the way to a log. */
  lemma LastPiece(cfg: Config, chain: Chain, s: State, at: nat, id: LogId, poison: Deposit -> bool, head: nat)
    returns (moves: seq<Move>)
    requires PollsAt(s, at) && at <= id.0 <= at + MAX_SPAN && id.1 < |chain(id.0)| && id.0 + cfg.delay <= head
    requires Clear(LogsThrough(chain, at, id), poison)
    ensures Times(DoAll(cfg, chain, s, moves), id) > Times(s, id)
    ensures Scripted(moves, head, poison)
  {
    var end, through := EndOf(cfg, at, head), LogsThrough(chain, at, id);
    var n := |through|;
    assert n > 0 && LogIds(chain, at, end + 1)[n - 1] == id && Logs(chain, at, end + 1)[..n] == through by {
      ThroughIsPrefix(chain, at, end + 1, id);
    }
    Piece(cfg, chain, s, at, head, n, poison);
    moves := Opening(head, poison) + Deliveries(n);
    var ids := LogIds(chain, at, end + 1)[..n];
    assert ids[n - 1] == id;
    OneMoreTime(s, DoAll(cfg, chain, s, moves), ids, id);
  }

  lemma Reach(cfg: Config, chain: Chain, s: State, launch: nat, id: LogId, poison: Deposit -> bool, head: nat)
    returns (moves: seq<Move>)
    requires !cfg.latest && id.1 < |chain(id.0)| && id.0 + cfg.delay <= head
    requires launch == LaunchPos(cfg, s.w.stored).value <= id.0 && Clear(LogsThrough(chain, launch, id), poison)
    ensures Times(DoAll(cfg, chain, s, moves), id) > Times(s, id)
    ensures Scripted(moves, head, poison)
  {
    ClearConcat(Logs(chain, launch, id.0), chain(id.0)[..id.1 + 1], poison);
    var walk, at := Restart(cfg, chain, s, head, id.0, poison);
    ClearLater(chain, launch, at, id, poison);
    TimesGrow(cfg, chain, s, walk, id);
    var last := LastPiece(cfg, chain, DoAll(cfg, chain, s, walk), at, id, poison, head);
    moves := walk + last;
    DoAllConcat(cfg, chain, s, walk, last);
    ScriptedConcat(walk, last, head, poison);
  }

  /** And over again, once more with every restart. */
  lemma {:induction false} ReachAgain(cfg: Config, chain: Chain, s: State, launch: nat, id: LogId,
                                      poison: Deposit -> bool, head: nat, n: nat)
    returns (moves: seq<Move>)
    requires !cfg.latest && id.1 < |chain(id.0)| && id.0 + cfg.delay <= head
    requires launch == LaunchPos(cfg, s.w.stored).value <= id.0 && Clear(LogsThrough(chain, launch, id), poison)
    ensures Times(DoAll(cfg, chain, s, moves), id) >= Times(s, id) + n
    ensures Scripted(moves, head, poison)
  {
    moves := [];
    if n > 0 {
      var first := ReachAgain(cfg, chain, s, launch, id, poison, head, n - 1);
      NothingSaved(cfg, chain, s, first);
      var last := Reach(cfg, chain, DoAll(cfg, chain, s, first), launch, id, poison, head);
      moves := first + last;
      DoAllConcat(cfg, chain, s, first, last);
      ScriptedConcat(first, last, head, poison);
    }
  }

  // ---------- which deposits can still be received ----------

  lemma OnlyIfAhead(cfg: Config, chain: Chain, initial: nat, moves: seq<Move>, more: seq<Move>, id: LogId,
                    poison: Deposit -> bool)
    requires !cfg.latest && Respects(moves, poison) && Respects(more, poison)
    requires var s := DoAll(cfg, chain, Begin(initial), moves);
             Times(DoAll(cfg, chain, s, more), id) > Stake(s, id)
    ensures var launch := LaunchPos(cfg, DoAll(cfg, chain, Begin(initial), moves).w.stored).value;
            && launch <= id.0 && id.1 < |chain(id.0)|
            && Clear(LogsThrough(chain, launch, id), poison)
  {
    var s := DoAll(cfg, chain, Begin(initial), moves);
    var launch := LaunchPos(cfg, s.w.stored).value;
    var events := ListenerRuns(cfg, chain, initial, moves);
    ReachableIsBeyond(cfg, chain, initial, events);
    if id.0 < launch {
      NeverReceivedAgain(cfg, chain, s, more, id, launch);
    }
    DoAllConcat(cfg, chain, Begin(initial), moves, more);
    ReceivedIsHandled(cfg, chain, initial, moves + more, id);
    HandledThrough(cfg, chain, initial, moves + more, id, poison);
    ClearLater(chain, LaunchPos(cfg, initial).value, launch, id, poison);
  }

  lemma ReceivedIsHandled(cfg: Config, chain: Chain, initial: nat, moves: seq<Move>, id: LogId)
    requires Times(DoAll(cfg, chain, Begin(initial), moves), id) > 0
    ensures id in DoAll(cfg, chain, Begin(initial), moves).w.handled
  {
    EveryLogAccountedFor(cfg, chain, initial, moves);
    assert id in multiset(DoAll(cfg, chain, Begin(initial), moves).receipts);
  }

  /** In every reachable state, and for every head that confirms its block, a deposit can be received
      once more (beyond the message that PollEvents may hold), be it new, rejected, lost or received
      before, exactly when a restart begins at or in front of its block and none of the deposits from
      there through it is poison. */
  lemma ReceivableExactly(cfg: Config, chain: Chain, initial: nat, moves: seq<Move>, id: LogId,
                          poison: Deposit -> bool, head: nat)
    requires !cfg.latest && Respects(moves, poison)
    requires id.1 < |chain(id.0)| && id.0 + cfg.delay <= head
    ensures var s := DoAll(cfg, chain, Begin(initial), moves);
            var launch := LaunchPos(cfg, s.w.stored).value;
            (exists more :: Admissible(more, head, poison) && Times(DoAll(cfg, chain, s, more), id) > Stake(s, id))
            <==> launch <= id.0 && Clear(LogsThrough(chain, launch, id), poison)
  {
    var s := DoAll(cfg, chain, Begin(initial), moves);
    var launch := LaunchPos(cfg, s.w.stored).value;
    if more :| Admissible(more, head, poison) && Times(DoAll(cfg, chain, s, more), id) > Stake(s, id) {
      OnlyIfAhead(cfg, chain, initial, moves, more, id, poison);
    }
    if launch <= id.0 && Clear(LogsThrough(chain, launch, id), poison) {
      var more := ReachAgain(cfg, chain, s, launch, id, poison, head, 2);
    }
  }

  /** Under the same condition it can be received any number of times: as long as the store is not past
      its block, every restart hands it over again. */
  lemma ReceivableAnyNumberOfTimes(cfg: Config, chain: Chain, initial: nat, moves: seq<Move>, id: LogId,
                                   poison: Deposit -> bool, head: nat)
    requires !cfg.latest && Respects(moves, poison)
    requires id.1 < |chain(id.0)| && id.0 + cfg.delay <= head
    ensures var s := DoAll(cfg, chain, Begin(initial), moves);
            var launch := LaunchPos(cfg, s.w.stored).value;
            (forall n: nat :: CanBeReceived(cfg, chain, s, id, poison, head, n))
            <==> launch <= id.0 && Clear(LogsThrough(chain, launch, id), poison)
  {
    var s := DoAll(cfg, chain, Begin(initial), moves);
    var launch := LaunchPos(cfg, s.w.stored).value;
    if forall n: nat :: CanBeReceived(cfg, chain, s, id, poison, head, n) {
      assert CanBeReceived(cfg, chain, s, id, poison, head, Stake(s, id) + 1);
      var more :| Admissible(more, head, poison) && Times(DoAll(cfg, chain, s, more), id) >= Stake(s, id) + 1;
      OnlyIfAhead(cfg, chain, initial, moves, more, id, poison);
    }
    if launch <= id.0 && Clear(LogsThrough(chain, launch, id), poison) {
      forall n: nat
        ensures CanBeReceived(cfg, chain, s, id, poison, head, n)
      {
        var more := ReachAgain(cfg, chain, s, launch, id, poison, head, n);
      }
    }
  }

  ghost predicate CanBeReceived(cfg: Config, chain: Chain, s: State, id: LogId, poison: Deposit -> bool, head: nat,
                                n: nat)
  {
    exists more :: Admissible(more, head, poison) && Times(DoAll(cfg, chain, s, more), id) >= n
  }

  /** Without poison: exactly the deposits that no restart begins behind. */
  lemma ReceivableUnlessStoredPast(cfg: Config, chain: Chain, initial: nat, moves: seq<Move>, id: LogId)
    requires !cfg.latest && id.1 < |chain(id.0)|
    ensures var s := DoAll(cfg, chain, Begin(initial), moves);
            (exists more :: Times(DoAll(cfg, chain, s, more), id) > Stake(s, id))
            <==> LaunchPos(cfg, s.w.stored).value <= id.0
  {
    var s := DoAll(cfg, chain, Begin(initial), moves);
    var none := (d: Deposit) => false;
    if more :| Times(DoAll(cfg, chain, s, more), id) > Stake(s, id) {
      OnlyIfAhead(cfg, chain, initial, moves, more, id, none);
    }
    if LaunchPos(cfg, s.w.stored).value <= id.0 {
      var more := ReachAgain(cfg, chain, s, LaunchPos(cfg, s.w.stored).value, id, none, id.0 + cfg.delay, 2);
    }
  }

  /** A message that PollEvents holds when the process dies survives exactly when the store is not yet
      past its block. */
  lemma HeldMessageSurvivesExactly(cfg: Config, chain: Chain, initial: nat, moves: seq<Move>)
    requires !cfg.latest
    ensures var s := DoAll(cfg, chain, Begin(initial), moves);
            s.held.Some? ==>
              var id, r := s.held.value, Do(cfg, chain, s, Listener(Crash));
              (exists more :: Times(DoAll(cfg, chain, r, more), id) > Times(s, id))
              <==> LaunchPos(cfg, s.w.stored).value <= id.0
  {
    var s := DoAll(cfg, chain, Begin(initial), moves);
    if s.held.Some? {
      var run := moves + [Listener(Crash)];
      assert run[..|run| - 1] == moves;
      EveryLogAccountedFor(cfg, chain, initial, moves);
      RunIsWholesome(cfg, chain, initial, moves, d => false);
      ReceivableUnlessStoredPast(cfg, chain, initial, run, s.held.value);
      assert Stake(Do(cfg, chain, s, Listener(Crash)), s.held.value) == Times(s, s.held.value);
    }
  }

  // ---------- which blocks can be completed and passed ----------

  /** A reachable run that has gone through the logs of its window up to block b has completed it. */
  lemma PieceCompletes(cfg: Config, chain: Chain, initial: nat, moves: seq<Move>, b: nat)
    requires var w := DoAll(cfg, chain, Begin(initial), moves).w;
             && w.process.Sending? && w.process.start <= b <= w.process.end
             && w.process.done == |Logs(chain, w.process.start, b + 1)|
    ensures b in DoAll(cfg, chain, Begin(initial), moves).w.complete
  {
    var w := DoAll(cfg, chain, Begin(initial), moves).w;
    var events := ListenerRuns(cfg, chain, initial, moves);
    RunIsSolid(cfg, chain, initial, events);
    assert Through(chain, w.process.start, w.process.done, b);
    assert b in Finished(chain, w.process.start, w.process.end, w.process.done);
  }

  lemma Complete(cfg: Config, chain: Chain, initial: nat, b: nat, poison: Deposit -> bool, head: nat)
    returns (moves: seq<Move>)
    requires !cfg.latest && LaunchPos(cfg, initial).value <= b && b + cfg.delay <= head
    requires Clear(Logs(chain, LaunchPos(cfg, initial).value, b + 1), poison)
    ensures b in DoAll(cfg, chain, Begin(initial), moves).w.complete
    ensures Scripted(moves, head, poison)
  {
    var launch := LaunchPos(cfg, initial).value;
    ClearConcat(Logs(chain, launch, b), chain(b), poison);
    var walk, at := Restart(cfg, chain, Begin(initial), head, b, poison);
    var n := |Logs(chain, at, b + 1)|;
    PieceIsClear(chain, launch, at, b + 1, EndOf(cfg, at, head) + 1, poison);
    Piece(cfg, chain, DoAll(cfg, chain, Begin(initial), walk), at, head, n, poison);
    var last := Opening(head, poison) + Deliveries(n);
    moves := walk + last;
    DoAllConcat(cfg, chain, Begin(initial), walk, last);
    ScriptedConcat(walk, last, head, poison);
    PieceCompletes(cfg, chain, initial, moves, b);
  }

  lemma PieceIsClear(chain: Chain, from: nat, at: nat, until: nat, end: nat, poison: Deposit -> bool)
    requires from <= at <= until <= end
    requires Clear(Logs(chain, from, until), poison)
    ensures var n := |Logs(chain, at, until)|;
            n <= |Logs(chain, at, end)| && Clear(Logs(chain, at, end)[..n], poison)
  {
    LogsSplit(chain, from, at, until);
    ClearConcat(Logs(chain, from, at), Logs(chain, at, until), poison);
    LogsSplit(chain, at, until, end);
    assert Logs(chain, at, end)[..|Logs(chain, at, until)|] == Logs(chain, at, until);
  }

  lemma CompletesInOrder(cfg: Config, chain: Chain, initial: nat, events: seq<Event>, b: nat)
    requires !cfg.latest && b in CrashRecovery.Run(cfg, chain, Initial(initial), events).complete
    ensures LaunchPos(cfg, initial).value <= b
    ensures forall c: nat :: LaunchPos(cfg, initial).value <= c < b + 1 ==>
              AllHandled(chain, CrashRecovery.Run(cfg, chain, Initial(initial), events), c)
  {
    var end := RunKeepsInv(cfg, chain, initial, events);
  }

  lemma CompletedIsClear(cfg: Config, chain: Chain, initial: nat, moves: seq<Move>, b: nat, poison: Deposit -> bool)
    requires !cfg.latest && Respects(moves, poison)
    requires b in DoAll(cfg, chain, Begin(initial), moves).w.complete
    ensures LaunchPos(cfg, initial).value <= b
    ensures Clear(Logs(chain, LaunchPos(cfg, initial).value, b + 1), poison)
  {
    var s := DoAll(cfg, chain, Begin(initial), moves);
    var events := ListenerRuns(cfg, chain, initial, moves);
    CompletesInOrder(cfg, chain, initial, events, b);
    RunIsWholesome(cfg, chain, initial, moves, poison);
    HandledIsClear(chain, s, LaunchPos(cfg, initial).value, b + 1, poison);
  }

  /** For every head that confirms it, a block can be completed exactly when no deposit from the first
      start through it is poison: crashes and restarts do not help. */
  lemma CompletableExactly(cfg: Config, chain: Chain, initial: nat, b: nat, poison: Deposit -> bool, head: nat)
    requires !cfg.latest && b + cfg.delay <= head
    ensures (exists moves :: Admissible(moves, head, poison)
                             && b in DoAll(cfg, chain, Begin(initial), moves).w.complete)
            <==> LaunchPos(cfg, initial).value <= b && Clear(Logs(chain, LaunchPos(cfg, initial).value, b + 1), poison)
  {
    if moves :| Admissible(moves, head, poison) && b in DoAll(cfg, chain, Begin(initial), moves).w.complete {
      CompletedIsClear(cfg, chain, initial, moves, b, poison);
    }
    if LaunchPos(cfg, initial).value <= b && Clear(Logs(chain, LaunchPos(cfg, initial).value, b + 1), poison) {
      var moves := Complete(cfg, chain, initial, b, poison, head);
    }
  }

  /** The listener is about to ask for blocks behind block b. */
  ghost predicate Passed(s: State, b: nat) {
    s.w.process.Polling? && s.w.process.pos.Some? && b < s.w.process.pos.value
  }

  /** The scan can pass a block from its first start on exactly when no deposit from there through it is poison. */
  lemma PassableExactly(cfg: Config, chain: Chain, initial: nat, b: nat, poison: Deposit -> bool)
    requires !cfg.latest && LaunchPos(cfg, initial).value <= b
    ensures (exists moves :: Respects(moves, poison) && Passed(DoAll(cfg, chain, Begin(initial), moves), b))
            <==> Clear(Logs(chain, LaunchPos(cfg, initial).value, b + 1), poison)
  {
    if moves :| Respects(moves, poison) && Passed(DoAll(cfg, chain, Begin(initial), moves), b) {
      var events := ListenerRuns(cfg, chain, initial, moves);
      NoGapAcrossCrashes(cfg, chain, initial, events);
      CompletedIsClear(cfg, chain, initial, moves, b, poison);
    }
    if Clear(Logs(chain, LaunchPos(cfg, initial).value, b + 1), poison) {
      var moves := Pass(cfg, chain, initial, b, poison);
    }
  }

  lemma Pass(cfg: Config, chain: Chain, initial: nat, b: nat, poison: Deposit -> bool) returns (moves: seq<Move>)
    requires !cfg.latest && LaunchPos(cfg, initial).value <= b
    requires Clear(Logs(chain, LaunchPos(cfg, initial).value, b + 1), poison)
    ensures Respects(moves, poison) && Passed(DoAll(cfg, chain, Begin(initial), moves), b)
  {
    var launch, head := LaunchPos(cfg, initial).value, b + cfg.delay;
    ClearConcat(Logs(chain, launch, b), chain(b), poison);
    var walk, at := Restart(cfg, chain, Begin(initial), head, b, poison);
    LogsSplit(chain, launch, at, b + 1);
    ClearConcat(Logs(chain, launch, at), Logs(chain, at, b + 1), poison);
    var last := WholeWindow(cfg, chain, DoAll(cfg, chain, Begin(initial), walk), at, head, poison);
    moves := walk + last;
    DoAllConcat(cfg, chain, Begin(initial), walk, last);
    ScriptedConcat(walk, last, head, poison);
  }

  // ---------- poison is a matter of the parsers ----------

  /** The deposits that the parsers panic on, when the handler look-up of a resource answers like this. */
  function PanickingDeposits(lookup: ResourceID -> Option<TransferType>): Deposit -> bool {
    (d: Deposit) => HandleEvent(lookup(d.resourceId), d).Panic?
  }

  /** They are the ERC721 deposits whose declared lengths do not fit their calldata's memory; a run in
      which the look-up never fails for one of them respects them. */
  lemma PoisonExactly(lookup: ResourceID -> Option<TransferType>, d: Deposit, m: Move)
    ensures PanickingDeposits(lookup)(d)
            <==> lookup(d.resourceId) == Some(NonFungibleTransfer) && |d.calldata.data| >= 64 && !Fits(d.calldata)
    ensures m.Listener? && m.event.Answer? && m.event.poll.Head?
            && (forall e: Deposit :: PanickingDeposits(lookup)(e) ==>
                  m.event.poll.handle(e) == HandleEvent(lookup(e.resourceId), e)) ==>
              MoveRespects(m, PanickingDeposits(lookup))
  {
    HandleEventPanics(lookup(d.resourceId), d);
  }

  /** Behind a poison deposit nothing happens in any run: no block from its own on is completed, the
      scan never passes it, and no deposit behind it is received. */
  lemma PoisonStopsTheScan(cfg: Config, chain: Chain, initial: nat, b: nat, i: nat, poison: Deposit -> bool,
                           moves: seq<Move>)
    requires !cfg.latest && LaunchPos(cfg, initial).value <= b && i < |chain(b)| && poison(chain(b)[i])
    requires Respects(moves, poison)
    ensures var s := DoAll(cfg, chain, Begin(initial), moves);
            && (forall c: nat :: c >= b ==> c !in s.w.complete && !Passed(s, c))
            && (forall id :: id in s.receipts ==> id.0 < b || (id.0 == b && id.1 < i))
  {
    var s := DoAll(cfg, chain, Begin(initial), moves);
    forall c: nat | c >= b
      ensures c !in s.w.complete && !Passed(s, c)
    {
      NothingBehind(cfg, chain, initial, b, i, c, poison, moves);
    }
    forall id | id in s.receipts
      ensures id.0 < b || (id.0 == b && id.1 < i)
    {
      EveryLogAccountedFor(cfg, chain, initial, moves);
      HandledThrough(cfg, chain, initial, moves, id, poison);
      PoisonThrough(chain, LaunchPos(cfg, initial).value, b, i, id, poison);
    }
  }

  lemma NothingBehind(cfg: Config, chain: Chain, initial: nat, b: nat, i: nat, c: nat,
                      poison: Deposit -> bool, moves: seq<Move>)
    requires !cfg.latest && LaunchPos(cfg, initial).value <= b <= c && i < |chain(b)| && poison(chain(b)[i])
    requires Respects(moves, poison)
    ensures var s := DoAll(cfg, chain, Begin(initial), moves);
            c !in s.w.complete && !Passed(s, c)
  {
    var launch := LaunchPos(cfg, initial).value;
    PoisonBlocks(chain, launch, b, i, poison);
    PoisonStays(chain, launch, b + 1, c + 1, poison);
    PassableExactly(cfg, chain, initial, c, poison);
    if c in DoAll(cfg, chain, Begin(initial), moves).w.complete {
      CompletedIsClear(cfg, chain, initial, moves, c, poison);
    }
  }

  /** A recipient length of 2^63 makes any deposit poison, whatever lies behind its calldata. */
  lemma OneDepositStopsTheScan(cfg: Config, chain: Chain, initial: nat, lookup: ResourceID -> Option<TransferType>,
                               b: nat, i: nat, moves: seq<Move>)
    requires !cfg.latest && LaunchPos(cfg, initial).value <= b && i < |chain(b)|
    requires chain(b)[i].calldata.data == Zeros(32) + Word(TWO_63)
    requires lookup(chain(b)[i].resourceId) == Some(NonFungibleTransfer)
    requires Respects(moves, PanickingDeposits(lookup))
    ensures var s := DoAll(cfg, chain, Begin(initial), moves);
            && (forall c: nat :: c >= b ==> c !in s.w.complete && !Passed(s, c))
            && (forall id :: id in s.receipts ==> id.0 < b || (id.0 == b && id.1 < i))
  {
    HugeLengthIsPoison(chain(b)[i]);
    PoisonStopsTheScan(cfg, chain, initial, b, i, PanickingDeposits(lookup), moves);
  }

  /** Its truncation is negative. */
  lemma HugeLengthIsPoison(d: Deposit)
    requires d.calldata.data == Zeros(32) + Word(TWO_63)
    ensures HandleEvent(Some(NonFungibleTransfer), d).Panic?
  {
    WordLength(TWO_63);
    assert d.calldata.data[32..64] == Word(TWO_63);
    HandleEventPanics(Some(NonFungibleTransfer), d);
  }

  lemma PoisonBlocks(chain: Chain, from: nat, b: nat, i: nat, poison: Deposit -> bool)
    requires from <= b && i < |chain(b)| && poison(chain(b)[i])
    ensures !Clear(Logs(chain, from, b + 1), poison)
  {
    ClearConcat(Logs(chain, from, b), chain(b), poison);
  }

  lemma PoisonStays(chain: Chain, from: nat, mid: nat, until: nat, poison: Deposit -> bool)
    requires from <= mid <= until && !Clear(Logs(chain, from, mid), poison)
    ensures !Clear(Logs(chain, from, until), poison)
  {
    LogsSplit(chain, from, mid, until);
    ClearConcat(Logs(chain, from, mid), Logs(chain, mid, until), poison);
  }

  lemma PoisonThrough(chain: Chain, from: nat, b: nat, i: nat, id: LogId, poison: Deposit -> bool)
    requires from <= b && i < |chain(b)| && poison(chain(b)[i])
    requires id.1 < |chain(id.0)| && Clear(LogsThrough(chain, from, id), poison)
    ensures id.0 < b || (id.0 == b && id.1 < i)
  {
    var last := chain(id.0)[..id.1 + 1];
    ClearConcat(Logs(chain, from, id.0), last, poison);
    if id.0 > b {
      PoisonBlocks(chain, from, b, i, poison);
      PoisonStays(chain, from, b + 1, id.0, poison);
    } else if id.0 == b {
      forall j | 0 <= j < |last|
        ensures !poison(chain(b)[j])
      {
        assert last[j] == chain(b)[j];
      }
    }
  }
}
