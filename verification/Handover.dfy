/**
 What becomes of the messages beyond the listener: whole runs of a listener together with the
 PollEvents goroutine it hands its messages to over an unbuffered channel. PollEvents holds at
 most one message until the relayer receives it; when the process dies, that message is lost.
 */
module Handover {
  import opened BlockScan
  import opened CrashRecovery
  import opened Messages

  /** The listener's run with, as history, the log whose message PollEvents holds, the ones the relayer
      received, in order, the ones a dying process lost, the ones the event handler returned an error
      for, how often the process died, and how many receipts are from before it last did. */
  datatype State = State(w: World, held: Option<LogId>, receipts: seq<LogId>, lost: set<LogId>, rejected: set<LogId>,
                         deaths: nat, since: nat)

  /** `Deliver` hands the next log to the event handler; sending its message blocks while PollEvents
      holds another one. `Receive` is the relayer's. */
  datatype Move = Listener(event: Event) | Deliver | Receive

  /** The logs of the window the listener is in, from the next one on, are not used up. */
  predicate HasNext(chain: Chain, w: World) {
    w.process.Sending? && w.process.done < |Logs(chain, w.process.start, w.process.end + 1)|
  }

  function NextId(chain: Chain, w: World): LogId
    requires HasNext(chain, w)
  {
    LogIds(chain, w.process.start, w.process.end + 1)[w.process.done]
  }

  /** What the event handler answers for the next log. */
  function NextAnswer(chain: Chain, w: World): Outcome<Message>
    requires HasNext(chain, w)
  {
    w.process.handle(Logs(chain, w.process.start, w.process.end + 1)[w.process.done])
  }

  function HeldSet(held: Option<LogId>): set<LogId> {
    if held.Some? then {held.value} else {}
  }

  function HeldSeq(held: Option<LogId>): seq<LogId> {
    if held.Some? then [held.value] else []
  }

  function Die(s: State): State {
    s.(w := s.w.(process := Down), held := None, lost := s.lost + HeldSet(s.held), deaths := s.deaths + 1,
        since := |s.receipts|)
  }

  function Do(cfg: Config, chain: Chain, s: State, m: Move): State {
    match m
    case Listener(e) =>
      if e.Handle? && HasNext(chain, s.w) then s
      else if e.Crash? then Die(s)
      else s.(w := Next(cfg, chain, s.w, e))
    case Deliver =>
      if !HasNext(chain, s.w) then s
      else
        (match NextAnswer(chain, s.w)
         case Ok(_) =>
           if s.held.Some? then s
           else s.(w := Next(cfg, chain, s.w, Handle), held := Some(NextId(chain, s.w)))
         case Error => s.(w := Next(cfg, chain, s.w, Handle), rejected := s.rejected + {NextId(chain, s.w)})
         case Panic => Die(s))
    case Receive =>
      s.(held := None, receipts := s.receipts + HeldSeq(s.held))
  }

  function DoAll(cfg: Config, chain: Chain, s: State, moves: seq<Move>): State {
    if moves == [] then s
    else Do(cfg, chain, DoAll(cfg, chain, s, moves[..|moves| - 1]), moves[|moves| - 1])
  }

  function Begin(stored: nat): State {
    State(Initial(stored), None, [], {}, {}, 0, 0)
  }

  // ---------- every run is a run of the listener ----------

  /** The listener's part of a move is one of its own events, or none. */
  lemma MoveIsEvent(cfg: Config, chain: Chain, s: State, m: Move)
    ensures var r := Do(cfg, chain, s, m);
            r.w != s.w ==> r.w == Next(cfg, chain, s.w, if m.Listener? then m.event else Handle)
  {
  }

  /** The listener's part of a run is one of the runs of CrashRecovery. */
  lemma {:induction false} ListenerRuns(cfg: Config, chain: Chain, stored: nat, moves: seq<Move>)
    returns (events: seq<Event>)
    ensures DoAll(cfg, chain, Begin(stored), moves).w == CrashRecovery.Run(cfg, chain, Initial(stored), events)
  {
    if moves == [] {
      events := [];
    } else {
      var n := |moves| - 1;
      events := ListenerRuns(cfg, chain, stored, moves[..n]);
      var before := DoAll(cfg, chain, Begin(stored), moves[..n]);
      if Do(cfg, chain, before, moves[n]).w != before.w {
        MoveIsEvent(cfg, chain, before, moves[n]);
        var e := if moves[n].Listener? then moves[n].event else Handle;
        assert (events + [e])[..|events|] == events;
        events := events + [e];
      }
    }
  }

  // ---------- what is accounted for ----------

  ghost predicate Accounted(s: State) {
    forall id :: id in s.w.handled <==> id in s.receipts || s.held == Some(id) || id in s.lost || id in s.rejected
  }

  lemma DoKeepsAccount(cfg: Config, chain: Chain, s: State, m: Move)
    requires Accounted(s)
    ensures Accounted(Do(cfg, chain, s, m))
  {
  }

  lemma DoLosesOne(cfg: Config, chain: Chain, s: State, m: Move)
    requires |s.lost| <= s.deaths
    ensures var r := Do(cfg, chain, s, m);
            |r.lost| <= r.deaths
  {
    if s.held.Some? {
      assert s.lost + {s.held.value} == if s.held.value in s.lost then s.lost else s.lost + {s.held.value};
    } else {
      assert s.lost + {} == s.lost;
    }
  }

  /** In every reachable state each log the handler returned for was rejected by it, received by the
      relayer, is in PollEvents' hands, or was in them when the process died; a death loses at most one. */
  lemma {:induction false} EveryLogAccountedFor(cfg: Config, chain: Chain, stored: nat, moves: seq<Move>)
    ensures var s := DoAll(cfg, chain, Begin(stored), moves);
            Accounted(s) && |s.lost| <= s.deaths
  {
    if moves != [] {
      var n := |moves| - 1;
      EveryLogAccountedFor(cfg, chain, stored, moves[..n]);
      var s := DoAll(cfg, chain, Begin(stored), moves[..n]);
      DoKeepsAccount(cfg, chain, s, moves[n]);
      DoLosesOne(cfg, chain, s, moves[n]);
    }
  }

  /** Every log of a complete block was received, rejected, is in PollEvents' hands, or was lost there. */
  lemma CompleteBlocksAccountedFor(cfg: Config, chain: Chain, stored: nat, moves: seq<Move>, b: nat, i: nat)
    requires !cfg.latest && b in DoAll(cfg, chain, Begin(stored), moves).w.complete && i < |chain(b)|
    ensures var s := DoAll(cfg, chain, Begin(stored), moves);
            (b, i) in s.receipts || s.held == Some((b, i)) || (b, i) in s.lost || (b, i) in s.rejected
  {
    var events := ListenerRuns(cfg, chain, stored, moves);
    NoGapAcrossCrashes(cfg, chain, stored, events);
    assert AllHandled(chain, DoAll(cfg, chain, Begin(stored), moves).w, b);
    EveryLogAccountedFor(cfg, chain, stored, moves);
  }

  // ---------- what a restart does not come back to ----------

  /** The run is at or beyond block `low`, and so is a restart. */
  ghost predicate AtOrBeyond(cfg: Config, w: World, low: nat) {
    && LaunchPos(cfg, w.stored).Some? && low <= LaunchPos(cfg, w.stored).value
    && match w.process
       case Down => true
       case Polling(pos) => pos.Some? && low <= pos.value
       case Sending(s, e, _, _) => low <= s <= e
       case Saving(s, e) => low <= s <= e
       case Advancing(e) => low <= e
  }

  lemma NextStaysBeyond(cfg: Config, chain: Chain, w: World, e: Event, low: nat)
    requires !cfg.latest && AtOrBeyond(cfg, w, low)
    ensures AtOrBeyond(cfg, Next(cfg, chain, w, e), low)
    ensures HasNext(chain, w) ==> NextId(chain, w).0 >= low
  {
    if HasNext(chain, w) {
      LogIdAt(chain, w.process.start, w.process.end + 1, w.process.done);
    }
  }

  /** In every reachable state the run is at or beyond the block a restart would begin with. */
  lemma ReachableIsBeyond(cfg: Config, chain: Chain, initial: nat, events: seq<Event>)
    requires !cfg.latest
    ensures var w := CrashRecovery.Run(cfg, chain, Initial(initial), events);
            && AtOrBeyond(cfg, w, LaunchPos(cfg, w.stored).value)
            && LaunchPos(cfg, initial).value <= LaunchPos(cfg, w.stored).value
  {
    var end := RunKeepsInv(cfg, chain, initial, events);
  }

  /** How often the relayer has received a log. */
  function Times(s: State, id: LogId): nat {
    multiset(s.receipts)[id]
  }

  /** The same, with the message in PollEvents' hands. */
  function Stake(s: State, id: LogId): nat {
    Times(s, id) + if s.held == Some(id) then 1 else 0
  }

  lemma StakeMove(cfg: Config, chain: Chain, s: State, m: Move, id: LogId)
    requires HasNext(chain, s.w) ==> NextId(chain, s.w) != id
    ensures Stake(Do(cfg, chain, s, m), id) <= Stake(s, id)
  {
  }

  /** A log in front of the block a restart begins with will not be received again, except for the
      message in PollEvents' hands, whatever happens from then on. */
  lemma {:induction false} NeverReceivedAgain(cfg: Config, chain: Chain, s: State, moves: seq<Move>, id: LogId,
                                              low: nat)
    requires !cfg.latest && AtOrBeyond(cfg, s.w, low) && id.0 < low
    ensures var r := DoAll(cfg, chain, s, moves);
            AtOrBeyond(cfg, r.w, low) && Stake(r, id) <= Stake(s, id)
  {
    if moves != [] {
      var n := |moves| - 1;
      NeverReceivedAgain(cfg, chain, s, moves[..n], id, low);
      var mid := DoAll(cfg, chain, s, moves[..n]);
      var e := if moves[n].Listener? then moves[n].event else Handle;
      NextStaysBeyond(cfg, chain, mid.w, e, low);
      MoveIsEvent(cfg, chain, mid, moves[n]);
      StakeMove(cfg, chain, mid, moves[n], id);
    }
  }

  // ---------- once per life ----------

  predicate Before(a: LogId, b: LogId) {
    a.0 < b.0 || (a.0 == b.0 && a.1 < b.1)
  }

  ghost predicate Increasing(ids: seq<LogId>) {
    forall i, j :: 0 <= i < j < |ids| ==> Before(ids[i], ids[j])
  }

  ghost predicate AllBefore(ids: seq<LogId>, id: LogId) {
    forall i :: 0 <= i < |ids| ==> Before(ids[i], id)
  }

  /** The receipts of the present life, and the message on its way. */
  function Life(s: State): seq<LogId>
    requires s.since <= |s.receipts|
  {
    s.receipts[s.since..] + HeldSeq(s.held)
  }

  /** Everything the process has handed over in this life is in front of this log. */
  function Frontier(chain: Chain, process: Process): LogId
    requires !process.Down? && process != Polling(None)
  {
    match process
    case Polling(pos) => (pos.value, 0)
    case Sending(s, e, done, _) =>
      var ids := LogIds(chain, s, e + 1);
      if done < |ids| then ids[done] else (e + 1, 0)
    case Saving(_, e) => (e + 1, 0)
    case Advancing(e) => (e + 1, 0)
  }

  ghost predicate Begun(process: Process) {
    !process.Down? && process != Polling(None)
  }

  ghost predicate InOrder(chain: Chain, s: State) {
    && s.since <= |s.receipts| && Increasing(Life(s))
    && (if Begun(s.w.process) then AllBefore(Life(s), Frontier(chain, s.w.process)) else Life(s) == [])
  }

  /** The logs of a window are numbered in order. */
  lemma LogIdsInOrder(chain: Chain, from: nat, until: nat, k: nat)
    requires k < |LogIds(chain, from, until)|
    ensures var ids := LogIds(chain, from, until);
            from <= ids[k].0 < until && (k + 1 < |ids| ==> Before(ids[k], ids[k + 1]))
  {
    LogIdAt(chain, from, until, k);
    var ids := LogIds(chain, from, until);
    if k + 1 < |ids| {
      LogIdAt(chain, from, until, k + 1);
      if ids[k + 1].0 < ids[k].0 {
        LogsGrow(chain, from, ids[k + 1].0 + 1, ids[k].0);
      }
    }
  }

  lemma AnswerFrontier(cfg: Config, chain: Chain, w: World, p: Poll, ids: seq<LogId>)
    requires w.process.Polling? && p.Head?
    requires if Begun(w.process) then AllBefore(ids, Frontier(chain, w.process)) else ids == []
    ensures var w' := Next(cfg, chain, w, Answer(p));
            Begun(w'.process) && AllBefore(ids, Frontier(chain, w'.process))
  {
    var w' := Next(cfg, chain, w, Answer(p));
    var pos := Start(w.process.pos, p.head);
    assert AllBefore(ids, (pos, 0));
    if w'.process.Sending? {
      WindowFrontier(chain, ids, w'.process, pos);
    }
  }

  lemma WindowFrontier(chain: Chain, ids: seq<LogId>, process: Process, pos: nat)
    requires process.Sending? && process.done == 0 && process.start == pos <= process.end && AllBefore(ids, (pos, 0))
    ensures AllBefore(ids, Frontier(chain, process))
  {
    if 0 < |LogIds(chain, pos, process.end + 1)| {
      LogIdsInOrder(chain, pos, process.end + 1, 0);
    }
    assert pos <= Frontier(chain, process).0;
  }

  /** Events that hand nothing over only move the frontier forward, or end the life. */
  lemma NextFrontier(cfg: Config, chain: Chain, w: World, e: Event, ids: seq<LogId>)
    requires !e.Handle? || !HasNext(chain, w)
    requires if Begun(w.process) then AllBefore(ids, Frontier(chain, w.process)) else ids == []
    ensures var w' := Next(cfg, chain, w, e);
            e.Crash? || if Begun(w'.process) then AllBefore(ids, Frontier(chain, w'.process)) else ids == []
  {
    match e
    case Answer(p) => if w.process.Polling? && p.Head? { AnswerFrontier(cfg, chain, w, p, ids); }
    case Launch(_) =>
    case Handle =>
    case Save(_) =>
    case Advance =>
    case Crash =>
  }

  /** Handing over the log at the frontier moves the frontier behind it. */
  lemma HandleFrontier(cfg: Config, chain: Chain, w: World)
    requires HasNext(chain, w) && !NextAnswer(chain, w).Panic?
    ensures Begun(w.process) && Frontier(chain, w.process) == NextId(chain, w)
    ensures var w' := Next(cfg, chain, w, Handle);
            Begun(w'.process) && Before(NextId(chain, w), Frontier(chain, w'.process))
  {
    LogIdsInOrder(chain, w.process.start, w.process.end + 1, w.process.done);
  }

  lemma AllBeforeLater(ids: seq<LogId>, a: LogId, b: LogId)
    requires AllBefore(ids, a) && Before(a, b)
    ensures AllBefore(ids, b) && AllBefore(ids + [a], b)
    ensures Increasing(ids) ==> Increasing(ids + [a])
  {
  }

  lemma DeliverKeepsOrder(cfg: Config, chain: Chain, s: State)
    requires InOrder(chain, s)
    ensures InOrder(chain, Do(cfg, chain, s, Deliver))
  {
    if HasNext(chain, s.w) && !NextAnswer(chain, s.w).Panic? && !(NextAnswer(chain, s.w).Ok? && s.held.Some?) {
      var s' := Do(cfg, chain, s, Deliver);
      HandleFrontier(cfg, chain, s.w);
      AllBeforeLater(Life(s), NextId(chain, s.w), Frontier(chain, s'.w.process));
      assert Life(s') == if NextAnswer(chain, s.w).Ok? then Life(s) + [NextId(chain, s.w)] else Life(s);
    }
  }

  lemma ListenerKeepsOrder(cfg: Config, chain: Chain, s: State, e: Event)
    requires InOrder(chain, s)
    ensures InOrder(chain, Do(cfg, chain, s, Listener(e)))
  {
    if e.Crash? {
      assert Life(Die(s)) == [];
    } else if !(e.Handle? && HasNext(chain, s.w)) {
      NextFrontier(cfg, chain, s.w, e, Life(s));
      assert Life(Do(cfg, chain, s, Listener(e))) == Life(s);
    }
  }

  lemma ReceiveKeepsOrder(cfg: Config, chain: Chain, s: State)
    requires InOrder(chain, s)
    ensures InOrder(chain, Do(cfg, chain, s, Receive))
  {
    assert Life(Do(cfg, chain, s, Receive)) == Life(s);
  }

  lemma DoKeepsOrder(cfg: Config, chain: Chain, s: State, m: Move)
    requires InOrder(chain, s)
    ensures InOrder(chain, Do(cfg, chain, s, m))
  {
    match m
    case Listener(e) => ListenerKeepsOrder(cfg, chain, s, e);
    case Deliver => DeliverKeepsOrder(cfg, chain, s);
    case Receive => ReceiveKeepsOrder(cfg, chain, s);
  }

  lemma {:induction false} RunInOrder(cfg: Config, chain: Chain, stored: nat, moves: seq<Move>)
    ensures InOrder(chain, DoAll(cfg, chain, Begin(stored), moves))
  {
    if moves != [] {
      var n := |moves| - 1;
      RunInOrder(cfg, chain, stored, moves[..n]);
      DoKeepsOrder(cfg, chain, DoAll(cfg, chain, Begin(stored), moves[..n]), moves[n]);
    }
  }

  lemma LastIsNew(ids: seq<LogId>)
    requires ids != [] && Increasing(ids)
    ensures ids[|ids| - 1] !in ids[..|ids| - 1]
  {
    var n := |ids| - 1;
    forall i | 0 <= i < n
      ensures ids[..n][i] != ids[n]
    {
      assert Before(ids[i], ids[n]);
    }
  }

  lemma {:induction false} IncreasingIsOnce(ids: seq<LogId>, id: LogId)
    requires Increasing(ids)
    ensures multiset(ids)[id] <= 1
  {
    if ids != [] {
      var n := |ids| - 1;
      IncreasingIsOnce(ids[..n], id);
      LastIsNew(ids);
      assert ids == ids[..n] + [ids[n]];
    }
  }

  /** The receipts split at a life's beginning, and those of one life hold each log at most once. */
  lemma TimesSplit(s: State, id: LogId)
    requires s.since <= |s.receipts| && Increasing(Life(s))
    ensures Times(s, id) <= multiset(s.receipts[..s.since])[id] + 1
  {
    var life := s.receipts[s.since..];
    assert s.receipts == s.receipts[..s.since] + life;
    assert forall i :: 0 <= i < |life| ==> Life(s)[i] == life[i];
    IncreasingIsOnce(life, id);
  }

  lemma {:induction false} EarlierLives(cfg: Config, chain: Chain, stored: nat, moves: seq<Move>, id: LogId)
    ensures var s := DoAll(cfg, chain, Begin(stored), moves);
            s.since <= |s.receipts| && multiset(s.receipts[..s.since])[id] <= s.deaths
  {
    if moves != [] {
      var n := |moves| - 1;
      EarlierLives(cfg, chain, stored, moves[..n], id);
      RunInOrder(cfg, chain, stored, moves[..n]);
      EarlierMove(cfg, chain, DoAll(cfg, chain, Begin(stored), moves[..n]), moves[n], id);
    }
  }

  /** A move extends the receipts within the life, or ends the life behind them. */
  lemma DoReceipts(cfg: Config, chain: Chain, s: State, m: Move)
    ensures var r := Do(cfg, chain, s, m);
            && s.receipts <= r.receipts
            && ((r.deaths == s.deaths && r.since == s.since)
                || (r.deaths == s.deaths + 1 && r.since == |s.receipts| && r.receipts == s.receipts))
  {
  }

  lemma EarlierMove(cfg: Config, chain: Chain, s: State, m: Move, id: LogId)
    requires InOrder(chain, s) && multiset(s.receipts[..s.since])[id] <= s.deaths
    ensures var r := Do(cfg, chain, s, m);
            r.since <= |r.receipts| && multiset(r.receipts[..r.since])[id] <= r.deaths
  {
    TimesSplit(s, id);
    DoReceipts(cfg, chain, s, m);
    SinceMoves(s, Do(cfg, chain, s, m), id);
  }

  lemma SinceMoves(s: State, r: State, id: LogId)
    requires s.since <= |s.receipts| && multiset(s.receipts[..s.since])[id] <= s.deaths && Times(s, id) <= s.deaths + 1
    requires s.receipts <= r.receipts
    requires (r.deaths == s.deaths && r.since == s.since)
             || (r.deaths == s.deaths + 1 && r.since == |s.receipts| && r.receipts == s.receipts)
    ensures r.since <= |r.receipts| && multiset(r.receipts[..r.since])[id] <= r.deaths
  {
    if r.deaths == s.deaths {
      assert r.receipts[..r.since] == s.receipts[..s.since];
    } else {
      assert r.receipts[..r.since] == s.receipts;
    }
  }

  /** Within one life of the process the relayer receives logs in strictly increasing order; so it
      receives each one at most once more often than the process died. */
  lemma OncePerLife(cfg: Config, chain: Chain, stored: nat, moves: seq<Move>, id: LogId)
    ensures var s := DoAll(cfg, chain, Begin(stored), moves);
            && s.since <= |s.receipts| && Increasing(s.receipts[s.since..])
            && Times(s, id) <= s.deaths + 1
  {
    var s := DoAll(cfg, chain, Begin(stored), moves);
    RunInOrder(cfg, chain, stored, moves);
    assert forall i :: 0 <= i < |s.receipts| - s.since ==> Life(s)[i] == s.receipts[s.since..][i];
    EarlierLives(cfg, chain, stored, moves, id);
    TimesSplit(s, id);
  }

  // ---------- deposits do get lost ----------

  ghost predicate Moves(cfg: Config, chain: Chain, states: seq<State>, moves: seq<Move>) {
    && |states| == |moves| + 1
    && forall k :: 0 <= k < |moves| ==> states[k + 1] == Do(cfg, chain, states[k], moves[k])
  }

  lemma {:induction false} MovesAreRun(cfg: Config, chain: Chain, states: seq<State>, moves: seq<Move>)
    requires Moves(cfg, chain, states, moves)
    ensures states[|moves|] == DoAll(cfg, chain, states[0], moves)
  {
    if moves != [] {
      var n := |moves| - 1;
      MovesAreRun(cfg, chain, states[..n + 1], moves[..n]);
    }
  }

  /** A chain with a single deposit, in block 0. */
  function OneDeposit(d: Deposit): Chain {
    b => if b == 0 then [d] else []
  }

  /** Scan blocks 0 and 1, hand over the deposit, store block 1, and die before the relayer receives it. */
  function LosingRun(delay: nat, handle: EventHandler): seq<Move> {
    [Listener(Launch(true)), Listener(Answer(Head(delay + 1, true, handle, true))), Deliver,
     Listener(Handle), Listener(Save(true)), Listener(Crash)]
  }

  /** It happens, whether the handler returns a message or an error: block 0 is complete and stored
      past, and its deposit will never be received. */
  lemma DepositCanBeLost(cfg: Config, d: Deposit, handle: EventHandler, moves: seq<Move>)
    requires !cfg.latest && !cfg.freshStart && cfg.startBlock == 0 && !handle(d).Panic?
    ensures var s := DoAll(cfg, OneDeposit(d), Begin(0), LosingRun(cfg.delay, handle));
            && (0, 0) in s.w.handled && 0 in s.w.complete
            && ((0, 0) in s.lost <==> handle(d).Ok?) && ((0, 0) in s.rejected <==> handle(d).Error?)
            && (0, 0) !in DoAll(cfg, OneDeposit(d), s, moves).receipts
  {
    LosingRunLoses(cfg, d, handle);
    NeverReceivedAgain(cfg, OneDeposit(d), DoAll(cfg, OneDeposit(d), Begin(0), LosingRun(cfg.delay, handle)), moves,
                       (0, 0), 1);
  }

  lemma LosingRunLoses(cfg: Config, d: Deposit, handle: EventHandler)
    requires !cfg.latest && !cfg.freshStart && cfg.startBlock == 0 && !handle(d).Panic?
    ensures var s := DoAll(cfg, OneDeposit(d), Begin(0), LosingRun(cfg.delay, handle));
            && (0, 0) in s.w.handled && 0 in s.w.complete
            && ((0, 0) in s.lost <==> handle(d).Ok?) && ((0, 0) in s.rejected <==> handle(d).Error?)
            && s.w.process.Down? && s.w.stored == 1 && s.receipts == [] && s.held.None?
  {
    var chain, run := OneDeposit(d), LosingRun(cfg.delay, handle);
    var s0 := Begin(0);
    var s1 := Do(cfg, chain, s0, run[0]);
    var s2 := Do(cfg, chain, s1, run[1]);
    var s3 := Do(cfg, chain, s2, run[2]);
    var s4 := Do(cfg, chain, s3, run[3]);
    var s5 := Do(cfg, chain, s4, run[4]);
    var s6 := Do(cfg, chain, s5, run[5]);
    assert s2.w.process == Sending(0, 1, 0, handle) && s2.w.stored == 0;
    LosingDelivery(cfg, d, handle, s2);
    MovesAreRun(cfg, chain, [s0, s1, s2, s3, s4, s5, s6], run);
  }

  lemma LosingDelivery(cfg: Config, d: Deposit, handle: EventHandler, s: State)
    requires s.w.process == Sending(0, 1, 0, handle) && !handle(d).Panic?
    requires s.held.None? && s.receipts == [] && s.lost == {} && s.rejected == {}
    ensures var chain := OneDeposit(d);
            var r := Do(cfg, chain, s, Deliver);
            && r.w.process == Sending(0, 1, 1, handle) && r.w.stored == s.w.stored && r.receipts == [] && r.lost == {}
            && (0, 0) in r.w.handled && 0 in r.w.complete
            && r.held == (if handle(d).Ok? then Some((0, 0)) else None)
            && r.rejected == (if handle(d).Error? then {(0, 0)} else {})
            && Logs(chain, 0, 2) == [d] && |LogIds(chain, 0, 2)| == 1
  {
    var chain := OneDeposit(d);
    assert Logs(chain, 0, 1) == [d] && Logs(chain, 0, 2) == [d];
    assert LogIds(chain, 0, 1) == [(0, 0)] && LogIds(chain, 0, 2) == [(0, 0)];
    assert Through(chain, 0, 1, 0);
  }
}
