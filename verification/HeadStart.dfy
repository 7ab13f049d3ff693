/**
 What a listener that starts at the head can still achieve. Such a listener does not come back to
 anything: after a restart it begins with the first head it sees, so what counts is how low the
 heads can still be.
 */
module HeadStart {
  import opened BlockScan
  import opened CrashRecovery
  import opened Handover
  import opened Messages
  import opened Progress

  /** All heads seen are at least this high. */
  ghost predicate HeadsFrom(moves: seq<Move>, low: nat) {
    forall k :: 0 <= k < |moves| ==> MoveHeadsFrom(moves[k], low)
  }

  ghost predicate MoveHeadsFrom(m: Move, low: nat) {
    m.Listener? && m.event.Answer? && m.event.poll.Head? ==> low <= m.event.poll.head
  }

  // ---------- only if: nothing below the heads ----------

  /** The listener is at or beyond block `low`, or will begin with a head. */
  ghost predicate AtOrAbove(w: World, low: nat) {
    match w.process
    case Down => true
    case Polling(pos) => pos.Some? ==> low <= pos.value
    case Sending(s, e, _, _) => low <= s <= e
    case Saving(s, e) => low <= s <= e
    case Advancing(e) => low <= e
  }

  lemma NextStaysAbove(cfg: Config, chain: Chain, w: World, e: Event, low: nat)
    requires cfg.latest && AtOrAbove(w, low)
    requires e.Answer? && e.poll.Head? ==> low <= e.poll.head
    ensures var w' := Next(cfg, chain, w, e);
            AtOrAbove(w', low) && forall b: nat :: b in w'.complete && b !in w.complete ==> low <= b
    ensures HasNext(chain, w) ==> NextId(chain, w).0 >= low
  {
    if HasNext(chain, w) {
      LogIdAt(chain, w.process.start, w.process.end + 1, w.process.done);
    }
  }

  /** A log below all heads is not received any more, once the process has died. */
  lemma {:induction false} NotReceivedBelow(cfg: Config, chain: Chain, s: State, moves: seq<Move>, id: LogId, low: nat)
    requires cfg.latest && AtOrAbove(s.w, low) && HeadsFrom(moves, low) && id.0 < low
    ensures var r := DoAll(cfg, chain, s, moves);
            AtOrAbove(r.w, low) && Stake(r, id) <= Stake(s, id)
  {
    if moves != [] {
      var n := |moves| - 1;
      NotReceivedBelow(cfg, chain, s, moves[..n], id, low);
      var mid := DoAll(cfg, chain, s, moves[..n]);
      NextStaysAbove(cfg, chain, mid.w, if moves[n].Listener? then moves[n].event else Handle, low);
      MoveIsEvent(cfg, chain, mid, moves[n]);
      StakeMove(cfg, chain, mid, moves[n], id);
    }
  }

  lemma {:induction false} NotCompletedBelow(cfg: Config, chain: Chain, s: State, moves: seq<Move>, low: nat)
    requires cfg.latest && AtOrAbove(s.w, low) && HeadsFrom(moves, low)
    ensures var r := DoAll(cfg, chain, s, moves);
            AtOrAbove(r.w, low) && forall b: nat :: b in r.w.complete && b !in s.w.complete ==> low <= b
  {
    if moves != [] {
      var n := |moves| - 1;
      NotCompletedBelow(cfg, chain, s, moves[..n], low);
      var mid := DoAll(cfg, chain, s, moves[..n]);
      NextStaysAbove(cfg, chain, mid.w, if moves[n].Listener? then moves[n].event else Handle, low);
      MoveIsEvent(cfg, chain, mid, moves[n]);
    }
  }

  // ---------- if: start with the right head ----------

  /** A head that arrives before the delay is over, or whose logs cannot be fetched, fixes the start. */
  function StartAt(b: nat, poison: Deposit -> bool): seq<Move> {
    [Listener(Launch(true)), Listener(Answer(Head(b, false, Accepting(poison), false)))]
  }

  lemma StartsAt(cfg: Config, chain: Chain, s: State, b: nat, poison: Deposit -> bool)
    requires cfg.latest && s.w.process.Down? && s.held.None?
    ensures var r := DoAll(cfg, chain, s, StartAt(b, poison));
            PollsAt(r, b) && r.receipts == s.receipts
    ensures Respects(StartAt(b, poison), poison) && HeadsFrom(StartAt(b, poison), b)
  {
    var moves := StartAt(b, poison);
    var s1 := Do(cfg, chain, s, moves[0]);
    var s2 := Do(cfg, chain, s1, moves[1]);
    MovesAreRun(cfg, chain, [s, s1, s2], moves);
  }

  lemma Joined(a: seq<Move>, b: seq<Move>, low: nat, head: nat, poison: Deposit -> bool)
    requires Respects(a, poison) && HeadsFrom(a, low) && Scripted(b, head, poison) && low <= head
    ensures Respects(a + b, poison) && HeadsFrom(a + b, low)
  {
    assert forall k :: 0 <= k < |b| ==> MoveSeesHead(b[k], head);
  }

  lemma ReachFromHead(cfg: Config, chain: Chain, s: State, id: LogId, poison: Deposit -> bool)
    returns (moves: seq<Move>)
    requires cfg.latest && s.w.process.Down? && s.held.None?
    requires id.1 < |chain(id.0)| && Clear(chain(id.0)[..id.1 + 1], poison)
    ensures Times(DoAll(cfg, chain, s, moves), id) > Times(s, id)
    ensures Respects(moves, poison) && HeadsFrom(moves, id.0)
  {
    var first, head := StartAt(id.0, poison), id.0 + cfg.delay;
    StartsAt(cfg, chain, s, id.0, poison);
    assert LogsThrough(chain, id.0, id) == chain(id.0)[..id.1 + 1];
    var last := LastPiece(cfg, chain, DoAll(cfg, chain, s, first), id.0, id, poison, head);
    moves := first + last;
    DoAllConcat(cfg, chain, s, first, last);
    Joined(first, last, id.0, head, poison);
  }

  // ---------- what a head start can still receive and complete ----------

  /** A process that is not running holds nothing. */
  lemma DownHoldsNothing(cfg: Config, chain: Chain, initial: nat, moves: seq<Move>)
    requires DoAll(cfg, chain, Begin(initial), moves).w.process.Down?
    ensures DoAll(cfg, chain, Begin(initial), moves).held.None?
  {
    RunInOrder(cfg, chain, initial, moves);
    var s := DoAll(cfg, chain, Begin(initial), moves);
    assert |Life(s)| == 0;
  }

  /** Whenever the process is down, and heads are no lower than `low` from then on, a deposit can be
      received (again) exactly when its block is not below that and no deposit in front of it in its
      block, nor itself, is poison: no other block matters. */
  lemma ReceivableFromHead(cfg: Config, chain: Chain, initial: nat, moves: seq<Move>, id: LogId,
                           poison: Deposit -> bool, low: nat)
    requires cfg.latest && Respects(moves, poison) && id.1 < |chain(id.0)|
    requires DoAll(cfg, chain, Begin(initial), moves).w.process.Down?
    ensures var s := DoAll(cfg, chain, Begin(initial), moves);
            (exists more :: Respects(more, poison) && HeadsFrom(more, low)
                            && Times(DoAll(cfg, chain, s, more), id) > Times(s, id))
            <==> low <= id.0 && Clear(chain(id.0)[..id.1 + 1], poison)
  {
    var s := DoAll(cfg, chain, Begin(initial), moves);
    DownHoldsNothing(cfg, chain, initial, moves);
    if more :| Respects(more, poison) && HeadsFrom(more, low) && Times(DoAll(cfg, chain, s, more), id) > Times(s, id) {
      if id.0 < low {
        NotReceivedBelow(cfg, chain, s, more, id, low);
      }
      DoAllConcat(cfg, chain, Begin(initial), moves, more);
      ReceivedIsHandled(cfg, chain, initial, moves + more, id);
      HandledInBlock(cfg, chain, initial, moves + more, id, poison);
    }
    if low <= id.0 && Clear(chain(id.0)[..id.1 + 1], poison) {
      var more := ReachFromHead(cfg, chain, s, id, poison);
    }
  }

  lemma CompleteFromHead(cfg: Config, chain: Chain, initial: nat, b: nat, poison: Deposit -> bool)
    returns (moves: seq<Move>)
    requires cfg.latest && Clear(chain(b), poison)
    ensures b in DoAll(cfg, chain, Begin(initial), moves).w.complete
    ensures Respects(moves, poison) && HeadsFrom(moves, b)
  {
    var first, head, n := StartAt(b, poison), b + cfg.delay, |chain(b)|;
    StartsAt(cfg, chain, Begin(initial), b, poison);
    assert Logs(chain, b, b + 1) == chain(b) && chain(b)[..n] == chain(b);
    assert EndOf(cfg, b, head) == b;
    Piece(cfg, chain, DoAll(cfg, chain, Begin(initial), first), b, head, n, poison);
    var last := Opening(head, poison) + Deliveries(n);
    moves := first + last;
    DoAllConcat(cfg, chain, Begin(initial), first, last);
    Joined(first, last, b, head, poison);
    PieceCompletes(cfg, chain, initial, moves, b);
  }

  lemma CompletedInBlock(cfg: Config, chain: Chain, initial: nat, moves: seq<Move>, b: nat, poison: Deposit -> bool)
    requires Respects(moves, poison) && b in DoAll(cfg, chain, Begin(initial), moves).w.complete
    ensures Clear(chain(b), poison)
  {
    var s := DoAll(cfg, chain, Begin(initial), moves);
    RunIsWholesome(cfg, chain, initial, moves, poison);
    var events := ListenerRuns(cfg, chain, initial, moves);
    RunIsSolid(cfg, chain, initial, events);
    assert AllHandled(chain, s.w, b);
    forall i: nat | i < |chain(b)|
      ensures !poison(chain(b)[i])
    {
      assert (b, i) in s.w.handled;
    }
  }

  /** A block can be completed exactly when the heads are not past it from the start and it holds no
      poison itself. */
  lemma CompletableFromHead(cfg: Config, chain: Chain, initial: nat, b: nat, poison: Deposit -> bool, low: nat)
    requires cfg.latest
    ensures (exists moves :: Respects(moves, poison) && HeadsFrom(moves, low)
                             && b in DoAll(cfg, chain, Begin(initial), moves).w.complete)
            <==> low <= b && Clear(chain(b), poison)
  {
    if moves :| Respects(moves, poison) && HeadsFrom(moves, low)
                && b in DoAll(cfg, chain, Begin(initial), moves).w.complete {
      NotCompletedBelow(cfg, chain, Begin(initial), moves, low);
      CompletedInBlock(cfg, chain, initial, moves, b, poison);
    }
    if low <= b && Clear(chain(b), poison) {
      var moves := CompleteFromHead(cfg, chain, initial, b, poison);
    }
  }
}
