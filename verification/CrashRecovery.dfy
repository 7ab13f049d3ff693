/**
 Whole runs of an EVM listener: launches, remote answers, failures of the block store, panics of
 the event handler and crashes between any two steps. An event that does not apply in a state changes nothing, so
 every sequence of events is a run.
 */
module CrashRecovery {
  import opened BlockScan
  import opened Messages

  datatype Config = Config(startBlock: nat, latest: bool, freshStart: bool, delay: nat)

  /** Where the listener is: not running; at the top of its loop; after handling the first `done`
      logs of a fetched window with an event handler that answers like `handle`; about to store the
      window's end; about to move past it. */
  datatype Process =
    | Down
    | Polling(pos: Option<nat>)
    | Sending(start: nat, end: nat, done: nat, handle: EventHandler)
    | Saving(start: nat, end: nat)
    | Advancing(end: nat)

  type LogId = (nat, nat)

  /** `first` is where the first launch started, `handled` the logs (block, index) for which the event
      handler returned, with a message that was handed to the channel or with an error, and `complete`
      the blocks of which a launch has gone through all logs. The last three are history. */
  datatype World = World(process: Process, stored: nat, first: Option<nat>, handled: set<LogId>, complete: set<nat>)

  datatype Event = Launch(readable: bool) | Answer(poll: Poll) | Handle | Save(ok: bool) | Advance | Crash

  function LogIds(chain: Chain, from: nat, until: nat): (ids: seq<LogId>)
    ensures |ids| == |Logs(chain, from, until)|
    decreases until
  {
    if from >= until then []
    else LogIds(chain, from, until - 1) + seq(|chain(until - 1)|, i => (until - 1, i))
  }

  /** Whether all logs from `start` through block b are among the first `done` ones. */
  predicate Through(chain: Chain, start: nat, done: nat, b: nat) {
    |Logs(chain, start, b + 1)| <= done
  }

  /** The blocks of a window whose logs are among the first `done` ones. */
  function Finished(chain: Chain, start: nat, end: nat, done: nat): set<nat> {
    set b: nat | start <= b <= end && Through(chain, start, done, b)
  }

  function LaunchPos(cfg: Config, stored: nat): Option<nat> {
    if cfg.latest then None
    else if cfg.freshStart || stored <= cfg.startBlock then Some(cfg.startBlock)
    else Some(stored)
  }

  function Next(cfg: Config, chain: Chain, w: World, e: Event): World {
    match e
    case Launch(readable) =>
      if w.process.Down? && (readable || cfg.latest || cfg.freshStart) then
        var pos := LaunchPos(cfg, w.stored);
        w.(process := Polling(pos), first := if w.first.None? then pos else w.first)
      else w
    case Answer(p) =>
      if w.process.Polling? && p.Head? then
        var pos := Start(w.process.pos, p.head);
        var window := WindowOf(MAX_SPAN, cfg.delay, w.process.pos, p);
        var w' := w.(first := if w.first.None? then Some(pos) else w.first);
        if window.None? || !p.fetched then w'.(process := Polling(Some(pos)))
        else
          var Window(start, end) := window.value;
          w'.(process := Sending(start, end, 0, p.handle), complete := w.complete + Finished(chain, start, end, 0))
      else w
    case Handle =>
      if w.process.Sending? then
        var Sending(start, end, done, handle) := w.process;
        var logs, ids := Logs(chain, start, end + 1), LogIds(chain, start, end + 1);
        if done >= |ids| then w.(process := Saving(start, end))
        else if handle(logs[done]).Panic? then w.(process := Down)
        else
          w.(process := Sending(start, end, done + 1, handle), handled := w.handled + {ids[done]},
             complete := w.complete + Finished(chain, start, end, done + 1))
      else w
    case Save(ok) =>
      if w.process.Saving? then
        w.(process := Advancing(w.process.end), stored := if ok then w.process.end else w.stored)
      else w
    case Advance =>
      if w.process.Advancing? then w.(process := Polling(Some(w.process.end + 1))) else w
    case Crash => w.(process := Down)
  }

  function Run(cfg: Config, chain: Chain, w: World, events: seq<Event>): World {
    if events == [] then w
    else Next(cfg, chain, Run(cfg, chain, w, events[..|events| - 1]), events[|events| - 1])
  }

  function Initial(stored: nat): World {
    World(Down, stored, None, {}, {})
  }

  // ---------- the order of logs in a window ----------

  lemma {:induction false} LogsGrow(chain: Chain, from: nat, mid: nat, until: nat)
    requires from <= mid <= until
    ensures LogIds(chain, from, mid) <= LogIds(chain, from, until)
    ensures |Logs(chain, from, mid)| <= |Logs(chain, from, until)|
    decreases until
  {
    if mid < until {
      LogsGrow(chain, from, mid, until - 1);
    }
  }

  /** Log number k of a window belongs to the block whose logs reach from at most k to beyond k. */
  lemma {:induction false} LogIdAt(chain: Chain, from: nat, until: nat, k: nat)
    requires k < |LogIds(chain, from, until)|
    ensures var (b, i) := LogIds(chain, from, until)[k];
            && from <= b < until && i < |chain(b)|
            && k == |Logs(chain, from, b)| + i
    decreases until
  {
    if k < |LogIds(chain, from, until - 1)| {
      LogIdAt(chain, from, until - 1, k);
    }
  }

  /** The other way round: log i of block b is the log with that number. */
  lemma LogIdOf(chain: Chain, from: nat, until: nat, b: nat, i: nat)
    requires from <= b < until && i < |chain(b)|
    ensures var k := |Logs(chain, from, b)| + i;
            k < |LogIds(chain, from, until)| && LogIds(chain, from, until)[k] == (b, i)
  {
    var k, ids, own := |Logs(chain, from, b)| + i, LogIds(chain, from, b), seq(|chain(b)|, i => (b, i));
    assert LogIds(chain, from, b + 1) == ids + own;
    assert (ids + own)[k] == own[i] == (b, i);
    LogsGrow(chain, from, b + 1, until);
  }

  /** The log with that number is the one the listener hands over. */
  lemma {:induction false} LogAt(chain: Chain, from: nat, until: nat, k: nat)
    requires k < |LogIds(chain, from, until)|
    ensures var (b, i) := LogIds(chain, from, until)[k];
            i < |chain(b)| && Logs(chain, from, until)[k] == chain(b)[i]
    decreases until
  {
    if k < |LogIds(chain, from, until - 1)| {
      LogAt(chain, from, until - 1, k);
    }
  }

  // ---------- the invariant ----------

  /** `end` bounds the blocks whose logs have all been handled: they are the interval from the first
      start up to `end`; beyond it, only block `end` itself may have been begun and not finished. */
  ghost predicate Inv(cfg: Config, chain: Chain, initial: nat, w: World, end: nat) {
    && (w.first.None? ==> w == Initial(initial))
    && (w.first.Some? ==>
          && w.first.value <= end
          && (forall b: nat :: b in w.complete <==> w.first.value <= b < end)
          && (forall b: nat, i: nat :: w.first.value <= b < end && i < |chain(b)| ==> (b, i) in w.handled)
          && (forall id :: id in w.handled ==> InFront(chain, w.first.value, end, id))
          && LaunchPos(cfg, initial) == w.first
          && (w.stored == initial || w.first.value <= w.stored < end)
          && ProcessInv(cfg, chain, w, w.first.value, end))
  }

  ghost predicate InFront(chain: Chain, first: nat, end: nat, id: LogId) {
    first <= id.0 && id.1 < |chain(id.0)| && (id.0 < end || (id.0 == end && id.1 + 1 < |chain(id.0)|))
  }

  ghost predicate ProcessInv(cfg: Config, chain: Chain, w: World, first: nat, end: nat) {
    match w.process
    case Down => true
    case Polling(pos) =>
      pos.Some? && first <= pos.value <= end && (!cfg.freshStart ==> w.stored <= pos.value)
    case Sending(s, e, done, _) =>
      && first <= s <= end && s <= e && (!cfg.freshStart ==> w.stored <= s)
      && done <= |LogIds(chain, s, e + 1)|
      && Finished(chain, s, e, done) <= w.complete
      && (forall id :: id in LogIds(chain, s, e + 1)[..done] ==> id in w.handled)
    case Saving(s, e) =>
      first <= s <= e < end && (!cfg.freshStart ==> w.stored <= s)
    case Advancing(e) =>
      first <= e < end && (!cfg.freshStart ==> w.stored <= e)
  }

  /** The blocks a window has finished form an interval; its end is the first unfinished block. */
  lemma {:induction false} FinishedIsInterval(chain: Chain, start: nat, end: nat, done: nat, from: nat) returns (f: nat)
    requires start <= from <= end + 1
    requires forall b: nat :: start <= b < from ==> Through(chain, start, done, b)
    ensures from <= f <= end + 1
    ensures forall b: nat :: b in Finished(chain, start, end, done) <==> start <= b < f
    ensures f <= end ==> !Through(chain, start, done, f)
    decreases end + 1 - from
  {
    f := from;
    if from <= end {
      if Through(chain, start, done, from) {
        f := FinishedIsInterval(chain, start, end, done, from + 1);
      } else {
        forall b: nat | from <= b <= end
          ensures !Through(chain, start, done, b)
        {
          LogsGrow(chain, start, from + 1, b + 1);
        }
      }
    }
  }

  /** A block past the interval that a window has finished has had all its logs handled. */
  lemma FinishedIsHandled(chain: Chain, handled: set<LogId>, s: nat, e: nat, done: nat, b: nat, i: nat)
    requires s <= b <= e && Through(chain, s, done, b) && i < |chain(b)|
    requires done <= |LogIds(chain, s, e + 1)|
    requires forall id :: id in LogIds(chain, s, e + 1)[..done] ==> id in handled
    ensures (b, i) in handled
  {
    var ids := LogIds(chain, s, e + 1);
    var k := |Logs(chain, s, b)| + i;
    assert ids[k] == (b, i) by { LogIdOf(chain, s, e + 1, b, i); }
    assert k < done by {
      assert Through(chain, s, done, b);
      assert Logs(chain, s, b + 1) == Logs(chain, s, b) + chain(b);
    }
    assert (b, i) == ids[..done][k];
  }

  /** The log just handled lies before the first unfinished block, or in it and is not its last. */
  lemma LastHandledInFront(chain: Chain, first: nat, s: nat, e: nat, done: nat, f: nat)
    requires first <= s <= f <= e + 1 && 0 < done <= |LogIds(chain, s, e + 1)|
    requires f <= e ==> !Through(chain, s, done, f)
    ensures InFront(chain, first, f, LogIds(chain, s, e + 1)[done - 1])
  {
    LogIdAt(chain, s, e + 1, done - 1);
    var id := LogIds(chain, s, e + 1)[done - 1];
    if id.0 > f {
      LogsGrow(chain, s, f + 1, id.0);
    }
  }

  /** Adding the finished blocks of a window that begins inside the interval keeps an interval. */
  lemma Extend(cfg: Config, chain: Chain, initial: nat, w: World, end: nat, w': World, s: nat, e: nat, done: nat)
    returns (end': nat)
    requires w.first.Some? && w'.process.Sending?
    requires w.first.value <= s <= end && s <= e && (!cfg.freshStart ==> w.stored <= s)
    requires Inv(cfg, chain, initial, w, end)
    requires done <= |LogIds(chain, s, e + 1)|
    requires w' == World(Sending(s, e, done, w'.process.handle), w.stored, w.first,
                         if done == 0 then w.handled else w.handled + {LogIds(chain, s, e + 1)[done - 1]},
                         w.complete + Finished(chain, s, e, done))
    requires forall id :: id in LogIds(chain, s, e + 1)[..done] ==> id in w'.handled
    ensures Inv(cfg, chain, initial, w', end')
  {
    var first := w.first.value;
    var f := FinishedIsInterval(chain, s, e, done, s);
    end' := if f > end then f else end;
    forall b: nat, i: nat | first <= b < end' && i < |chain(b)|
      ensures (b, i) in w'.handled
    {
      if b >= end {
        assert b in Finished(chain, s, e, done);
        FinishedIsHandled(chain, w'.handled, s, e, done, b, i);
      }
    }
    if done > 0 {
      LastHandledInFront(chain, first, s, e, done, f);
    }
    forall id | id in w'.handled
      ensures InFront(chain, first, end', id)
    {
      assert id in w.handled ==> InFront(chain, first, end, id);
    }
  }

  lemma AnswerKeepsInv(cfg: Config, chain: Chain, initial: nat, w: World, end: nat, p: Poll) returns (end': nat)
    requires !cfg.latest && Inv(cfg, chain, initial, w, end)
    ensures Inv(cfg, chain, initial, Next(cfg, chain, w, Answer(p)), end')
  {
    end' := end;
    if w.process.Polling? && p.Head? {
      var window := WindowOf(MAX_SPAN, cfg.delay, w.process.pos, p);
      if window.Some? && p.fetched {
        var Window(start, last) := window.value;
        end' := Extend(cfg, chain, initial, w, end, Next(cfg, chain, w, Answer(p)), start, last, 0);
      }
    }
  }

  lemma HandleKeepsInv(cfg: Config, chain: Chain, initial: nat, w: World, end: nat) returns (end': nat)
    requires !cfg.latest && Inv(cfg, chain, initial, w, end)
    ensures Inv(cfg, chain, initial, Next(cfg, chain, w, Handle), end')
  {
    end' := end;
    if w.process.Sending? {
      var Sending(s, e, done, handle) := w.process;
      var ids := LogIds(chain, s, e + 1);
      if done < |ids| && !handle(Logs(chain, s, e + 1)[done]).Panic? {
        assert ids[..done + 1] == ids[..done] + [ids[done]];
        end' := Extend(cfg, chain, initial, w, end, Next(cfg, chain, w, Handle), s, e, done + 1);
      } else if done >= |ids| {
        assert e in Finished(chain, s, e, done);
      }
    }
  }

  lemma NextKeepsInv(cfg: Config, chain: Chain, initial: nat, w: World, end: nat, e: Event) returns (end': nat)
    requires !cfg.latest && Inv(cfg, chain, initial, w, end)
    ensures Inv(cfg, chain, initial, Next(cfg, chain, w, e), end')
  {
    end' := end;
    match e
    case Launch(_) =>
      if w.first.None? && w.process.Down? && Next(cfg, chain, w, e) != w {
        end' := LaunchPos(cfg, w.stored).value;
      }
    case Answer(p) => end' := AnswerKeepsInv(cfg, chain, initial, w, end, p);
    case Handle => end' := HandleKeepsInv(cfg, chain, initial, w, end);
    case Save(_) =>
    case Advance =>
    case Crash =>
  }

  lemma {:induction false} RunKeepsInv(cfg: Config, chain: Chain, initial: nat, events: seq<Event>) returns (end: nat)
    requires !cfg.latest
    ensures Inv(cfg, chain, initial, Run(cfg, chain, Initial(initial), events), end)
  {
    if events == [] {
      end := 0;
    } else {
      var n := |events| - 1;
      end := RunKeepsInv(cfg, chain, initial, events[..n]);
      end := NextKeepsInv(cfg, chain, initial, Run(cfg, chain, Initial(initial), events[..n]), end, events[n]);
    }
  }

  // ---------- what the invariant gives ----------

  ghost predicate IsInterval(s: set<nat>, start: nat, end: nat) {
    start <= end && forall b: nat :: b in s <==> start <= b < end
  }

  /** No block between the first start and the last complete block is missing. */
  ghost predicate Contiguous(w: World) {
    w.first.Some? ==> exists end: nat :: IsInterval(w.complete, w.first.value, end)
  }

  ghost predicate AllHandled(chain: Chain, w: World, b: nat) {
    forall i: nat :: i < |chain(b)| ==> (b, i) in w.handled
  }

  /** Over every run of answers, failures, crashes and restarts that does not start at the head: the
      complete blocks are one interval from the first start; they are, among the blocks with logs, the
      ones whose logs were all handled; the stored block is one of them unless nothing was stored; and
      the scan never continues, nor restarts, beyond them. */
  lemma NoGapAcrossCrashes(cfg: Config, chain: Chain, initial: nat, events: seq<Event>)
    requires !cfg.latest
    ensures var w := Run(cfg, chain, Initial(initial), events);
            && Contiguous(w)
            && (w.first.Some? ==> w.first == LaunchPos(cfg, initial))
            && (forall b: nat :: b in w.complete ==> AllHandled(chain, w, b))
            && (forall b: nat :: chain(b) != [] && AllHandled(chain, w, b) ==> b in w.complete)
            && (w.stored != initial ==> w.stored in w.complete)
            && (w.process.Polling? ==>
                  && w.first.Some? && w.process.pos.Some?
                  && forall b: nat :: w.first.value <= b < w.process.pos.value ==> b in w.complete)
  {
    var w := Run(cfg, chain, Initial(initial), events);
    var end := RunKeepsInv(cfg, chain, initial, events);
    assert w.first.Some? ==> IsInterval(w.complete, w.first.value, end);
    forall b: nat | chain(b) != [] && AllHandled(chain, w, b)
      ensures b in w.complete
    {
      var last := (b, |chain(b)| - 1);
      assert last in w.handled;
      assert InFront(chain, w.first.value, end, last);
    }
  }

  /** A restart from the store never moves the stored block back. */
  lemma StoredNeverDecreases(cfg: Config, chain: Chain, initial: nat, events: seq<Event>, e: Event)
    requires !cfg.latest && !cfg.freshStart
    ensures var w := Run(cfg, chain, Initial(initial), events);
            w.stored <= Next(cfg, chain, w, e).stored
  {
    var end := RunKeepsInv(cfg, chain, initial, events);
  }

  // ---------- the order within a block ----------

  ghost predicate Closed(handled: set<LogId>) {
    forall b: nat, i: nat, j: nat :: (b, i) in handled && j < i ==> (b, j) in handled
  }

  /** When a log is handled, so were the ones in front of it in its block. */
  lemma HandleKeepsClosed(chain: Chain, handled: set<LogId>, s: nat, e: nat, done: nat)
    requires Closed(handled) && done < |LogIds(chain, s, e + 1)|
    requires forall id :: id in LogIds(chain, s, e + 1)[..done] ==> id in handled
    ensures Closed(handled + {LogIds(chain, s, e + 1)[done]})
  {
    var ids := LogIds(chain, s, e + 1);
    var (b, i) := ids[done];
    LogIdAt(chain, s, e + 1, done);
    forall j: nat | j < i
      ensures (b, j) in handled
    {
      LogIdOf(chain, s, e + 1, b, j);
      assert ids[..done][|Logs(chain, s, b)| + j] == (b, j);
    }
  }

  /** What holds of every run, also of those that start at the head: the logs handled of a block are its
      first ones, the first ones of a window are handled and the blocks they finish complete, and
      complete blocks have had all of their logs handled. */
  ghost predicate Solid(chain: Chain, w: World) {
    && Closed(w.handled)
    && (w.process.Sending? ==>
          var ids := LogIds(chain, w.process.start, w.process.end + 1);
          && w.process.done <= |ids| && (forall id :: id in ids[..w.process.done] ==> id in w.handled)
          && Finished(chain, w.process.start, w.process.end, w.process.done) <= w.complete)
    && (forall b: nat :: b in w.complete ==> AllHandled(chain, w, b))
  }

  /** Adding the finished blocks of a window. */
  lemma FinishedIsSolid(chain: Chain, handled: set<LogId>, complete: set<nat>, process: Process, w: World)
    requires process.Sending? && Closed(handled) && w.process == process && w.handled == handled
    requires forall b: nat :: b in complete ==> AllHandled(chain, w, b)
    requires process.done <= |LogIds(chain, process.start, process.end + 1)|
    requires forall id :: id in LogIds(chain, process.start, process.end + 1)[..process.done] ==> id in handled
    requires w.complete == complete + Finished(chain, process.start, process.end, process.done)
    ensures Solid(chain, w)
  {
    forall b: nat, i: nat | b in Finished(chain, process.start, process.end, process.done) && i < |chain(b)|
      ensures (b, i) in handled
    {
      FinishedIsHandled(chain, handled, process.start, process.end, process.done, b, i);
    }
  }

  lemma HandleKeepsSolid(cfg: Config, chain: Chain, w: World)
    requires Solid(chain, w) && w.process.Sending?
    ensures Solid(chain, Next(cfg, chain, w, Handle))
  {
    var ids, done := LogIds(chain, w.process.start, w.process.end + 1), w.process.done;
    var w' := Next(cfg, chain, w, Handle);
    if w'.process.Sending? {
      HandleKeepsClosed(chain, w.handled, w.process.start, w.process.end, done);
      assert ids[..done + 1] == ids[..done] + [ids[done]];
      FinishedIsSolid(chain, w'.handled, w.complete, w'.process, w');
    }
  }

  lemma NextKeepsSolid(cfg: Config, chain: Chain, w: World, e: Event)
    requires Solid(chain, w)
    ensures Solid(chain, Next(cfg, chain, w, e))
  {
    var w' := Next(cfg, chain, w, e);
    if e.Handle? && w.process.Sending? {
      HandleKeepsSolid(cfg, chain, w);
    } else if w'.process.Sending? && w' != w {
      FinishedIsSolid(chain, w.handled, w.complete, w'.process, w');
    }
  }

  lemma {:induction false} RunIsSolid(cfg: Config, chain: Chain, initial: nat, events: seq<Event>)
    ensures Solid(chain, Run(cfg, chain, Initial(initial), events))
  {
    if events != [] {
      var n := |events| - 1;
      RunIsSolid(cfg, chain, initial, events[..n]);
      NextKeepsSolid(cfg, chain, Run(cfg, chain, Initial(initial), events[..n]), events[n]);
    }
  }

  const NO_LOGS: Chain := b => []

  /** Two launches at the head, with blocks passing in between. */
  function GapRun(delay: nat): seq<Event> {
    var answer := (head: nat) => Answer(Head(head, true, d => Error, true));
    [Launch(true), answer(0), answer(delay), Crash, Launch(true), answer(delay + 5), answer(2 * delay + 5)]
  }

  lemma LatestLeavesGap(cfg: Config, initial: nat)
    requires cfg.latest
    ensures !Contiguous(Run(cfg, NO_LOGS, Initial(initial), GapRun(cfg.delay)))
  {
    var events := GapRun(cfg.delay);
    var w := Initial(initial);
    var w1 := Next(cfg, NO_LOGS, w, events[0]);
    var w2 := Next(cfg, NO_LOGS, w1, events[1]);
    var w3 := Next(cfg, NO_LOGS, w2, events[2]);
    var w4 := Next(cfg, NO_LOGS, w3, events[3]);
    var w5 := Next(cfg, NO_LOGS, w4, events[4]);
    var w6 := Next(cfg, NO_LOGS, w5, events[5]);
    var w7 := Next(cfg, NO_LOGS, w6, events[6]);
    assert Run(cfg, NO_LOGS, w, events) == w7 by {
      RunSeven(cfg, NO_LOGS, w, events);
    }
    assert w3.process.Sending? && w3.process.start == 0 && w3.process.end == 0 && 0 in w3.complete;
    var late := cfg.delay + 5;
    assert Logs(NO_LOGS, late, late + 1) == [];
    assert Through(NO_LOGS, late, 0, late);
    assert w5.process == Polling(None);
    assert cfg.delay == 0 ==> w6.process.Sending?;
    assert cfg.delay > 0 ==> w6.process == Polling(Some(late));
    assert w7.process.Sending? && w7.process.start == late && w7.process.end == late;
    assert w7.first == Some(0) && 0 in w7.complete && 1 !in w7.complete && cfg.delay + 5 in w7.complete;
  }

  lemma RunSeven(cfg: Config, chain: Chain, w: World, events: seq<Event>)
    requires |events| == 7
    ensures Run(cfg, chain, w, events)
         == var w3 := Next(cfg, chain, Next(cfg, chain, Next(cfg, chain, w, events[0]), events[1]), events[2]);
            var w6 := Next(cfg, chain, Next(cfg, chain, Next(cfg, chain, w3, events[3]), events[4]), events[5]);
            Next(cfg, chain, w6, events[6])
  {
    assert events[..6][..5] == events[..5] && events[..5][..4] == events[..4] && events[..4][..3] == events[..3];
    assert events[..3][..2] == events[..2] && events[..2][..1] == events[..1] && events[..1][..0] == [];
    assert Run(cfg, chain, w, events[..0]) == w;
    assert Run(cfg, chain, w, events[..1]) == Next(cfg, chain, w, events[0]);
    assert Run(cfg, chain, w, events[..2]) == Next(cfg, chain, Run(cfg, chain, w, events[..1]), events[1]);
    assert Run(cfg, chain, w, events[..3]) == Next(cfg, chain, Run(cfg, chain, w, events[..2]), events[2]);
    assert Run(cfg, chain, w, events[..4]) == Next(cfg, chain, Run(cfg, chain, w, events[..3]), events[3]);
    assert Run(cfg, chain, w, events[..5]) == Next(cfg, chain, Run(cfg, chain, w, events[..4]), events[4]);
    assert Run(cfg, chain, w, events[..6]) == Next(cfg, chain, Run(cfg, chain, w, events[..5]), events[5]);
  }

  /** Runs leave no gap, on any chain and whatever happens, exactly when the listener is not told to
      start at the head. */
  lemma GaplessUnlessLatest(cfg: Config, initial: nat)
    ensures (forall chain: Chain, events: seq<Event> :: Contiguous(Run(cfg, chain, Initial(initial), events)))
            <==> !cfg.latest
  {
    if cfg.latest {
      LatestLeavesGap(cfg, initial);
    } else {
      forall chain: Chain, events: seq<Event>
        ensures Contiguous(Run(cfg, chain, Initial(initial), events))
      {
        NoGapAcrossCrashes(cfg, chain, initial, events);
      }
    }
  }

  // ---------- an undisturbed iteration is one step of the scanner ----------

  function Elements(ids: seq<LogId>): set<LogId> {
    set id | id in ids
  }

  function Handles(n: nat): seq<Event> {
    seq(n, _ => Handle)
  }

  function Iteration(cfg: Config, chain: Chain, pos: Option<nat>, p: Poll): seq<Event> {
    var w := WindowOf(MAX_SPAN, cfg.delay, pos, p);
    if w.None? || !p.fetched then [Answer(p)]
    else [Answer(p)] + Handles(|Logs(chain, w.value.start, w.value.end + 1)| + 1) + [Save(p.saved), Advance]
  }

  lemma {:induction false} RunConcat(cfg: Config, chain: Chain, w: World, a: seq<Event>, b: seq<Event>)
    ensures Run(cfg, chain, w, a + b) == Run(cfg, chain, Run(cfg, chain, w, a), b)
  {
    if b == [] {
      assert a + b == a;
    } else {
      var n := |b| - 1;
      RunConcat(cfg, chain, w, a, b[..n]);
      assert (a + b)[..|a + b| - 1] == a + b[..n];
    }
  }

  lemma RunThree(cfg: Config, chain: Chain, w: World, a: seq<Event>, b: seq<Event>, c: seq<Event>,
                 w1: World, w2: World, w3: World)
    requires Run(cfg, chain, w, a) == w1 && Run(cfg, chain, w1, b) == w2 && Run(cfg, chain, w2, c) == w3
    ensures Run(cfg, chain, w, a + b + c) == w3
  {
    RunConcat(cfg, chain, w, a + b, c);
    RunConcat(cfg, chain, w, a, b);
  }

  lemma RunOne(cfg: Config, chain: Chain, w: World, e: Event)
    ensures Run(cfg, chain, w, [e]) == Next(cfg, chain, w, e)
  {
    assert [e][..0] == [];
    assert Run(cfg, chain, w, [e][..0]) == w;
  }

  lemma ElementsSnoc(ids: seq<LogId>, k: nat)
    requires k < |ids|
    ensures Elements(ids[..k + 1]) == Elements(ids[..k]) + {ids[k]}
  {
    assert ids[..k + 1] == ids[..k] + [ids[k]];
  }

  /** The window that w is in, with its logs and their numbers. */
  ghost predicate InWindow(chain: Chain, w: World, logs: seq<Deposit>, ids: seq<LogId>) {
    && w.process.Sending?
    && logs == Logs(chain, w.process.start, w.process.end + 1)
    && ids == LogIds(chain, w.process.start, w.process.end + 1)
  }

  lemma HandleOne(cfg: Config, chain: Chain, w: World, mid: World, logs: seq<Deposit>, ids: seq<LogId>, n: nat)
    requires InWindow(chain, w, logs, ids) && 0 < n <= Survived(logs, w.process.handle)
    requires mid.process == w.process.(done := n - 1) && mid.stored == w.stored
    requires mid.handled == w.handled + Elements(ids[..n - 1])
    ensures var r := Next(cfg, chain, mid, Handle);
            && r.process == w.process.(done := n)
            && r.stored == w.stored && r.handled == w.handled + Elements(ids[..n])
  {
    ElementsSnoc(ids, n - 1);
  }

  lemma {:induction false} HandlesAll(cfg: Config, chain: Chain, w: World, logs: seq<Deposit>, ids: seq<LogId>, n: nat)
    requires InWindow(chain, w, logs, ids) && w.process.done == 0
    requires n <= Survived(logs, w.process.handle)
    ensures var r := Run(cfg, chain, w, Handles(n));
            && r.process == w.process.(done := n)
            && r.stored == w.stored && r.handled == w.handled + Elements(ids[..n])
  {
    if n != 0 {
      HandlesAll(cfg, chain, w, logs, ids, n - 1);
      HandlesSnoc(cfg, chain, w, n);
      HandleOne(cfg, chain, w, Run(cfg, chain, w, Handles(n - 1)), logs, ids, n);
    } else {
      assert Run(cfg, chain, w, Handles(0)) == w;
      assert Elements(ids[..0]) == {};
    }
  }

  lemma HandlesSnoc(cfg: Config, chain: Chain, w: World, n: nat)
    requires n > 0
    ensures Run(cfg, chain, w, Handles(n)) == Next(cfg, chain, Run(cfg, chain, w, Handles(n - 1)), Handle)
  {
    assert Handles(n)[..n - 1] == Handles(n - 1);
  }

  /** A process that is down stays so through these events. */
  lemma {:induction false} DownStays(cfg: Config, chain: Chain, w: World, events: seq<Event>)
    requires w.process.Down?
    requires forall i :: 0 <= i < |events| ==> events[i].Handle? || events[i].Save? || events[i].Advance?
    ensures Run(cfg, chain, w, events) == w
  {
    if events != [] {
      DownStays(cfg, chain, w, events[..|events| - 1]);
    }
  }

  /** The last log was handled, or the handler panics on the next one. */
  lemma HandlesEnd(cfg: Config, chain: Chain, w: World, logs: seq<Deposit>, ids: seq<LogId>, more: nat)
    requires InWindow(chain, w, logs, ids)
    requires w.process.done == Survived(logs, w.process.handle) && more > 0
    requires w.process.done == |logs| ==> more == 1
    ensures Run(cfg, chain, w, Handles(more))
            == w.(process := if w.process.done < |logs| then Down else Saving(w.process.start, w.process.end))
  {
    var w1 := Next(cfg, chain, w, Handle);
    RunOne(cfg, chain, w, Handle);
    assert Handles(more) == [Handle] + Handles(more - 1);
    RunConcat(cfg, chain, w, [Handle], Handles(more - 1));
    if w1.process.Down? {
      DownStays(cfg, chain, w1, Handles(more - 1));
    } else {
      assert Handles(0) == [];
    }
  }

  lemma WindowHandled(cfg: Config, chain: Chain, w: World, logs: seq<Deposit>, ids: seq<LogId>)
    requires InWindow(chain, w, logs, ids) && w.process.done == 0
    ensures var r, k := Run(cfg, chain, w, Handles(|logs| + 1)), Survived(logs, w.process.handle);
            && r.process == (if k < |logs| then Down else Saving(w.process.start, w.process.end))
            && r.stored == w.stored && r.handled == w.handled + Elements(ids[..k])
  {
    var k := Survived(logs, w.process.handle);
    var more := |logs| + 1 - k;
    HandlesAll(cfg, chain, w, logs, ids, k);
    HandlesEnd(cfg, chain, Run(cfg, chain, w, Handles(k)), logs, ids, more);
    assert Handles(|logs| + 1) == Handles(k) + Handles(more);
    RunConcat(cfg, chain, w, Handles(k), Handles(more));
  }

  lemma SaveAndAdvance(cfg: Config, chain: Chain, w: World, ok: bool)
    requires w.process.Saving?
    ensures Run(cfg, chain, w, [Save(ok), Advance])
            == w.(process := Polling(Some(w.process.end + 1)), stored := if ok then w.process.end else w.stored)
  {
    RunOne(cfg, chain, w, Save(ok));
    assert [Save(ok), Advance][..1] == [Save(ok)];
  }

  /** The block behind the ones an iteration asks for. */
  function Until(delay: nat, pos: Option<nat>, p: Poll): nat
    requires p.Head?
  {
    var window := WindowOf(MAX_SPAN, delay, pos, p);
    if window.Some? && p.fetched then window.value.end + 1 else Start(pos, p.head)
  }

  /** Without a crash from outside, one iteration moves the position and the stored block as the
      scanner's step does, ends the process where that crashes, and hands over exactly the logs that
      it calls the event handler for and that the handler returns for. */
  lemma IterationIsStep(cfg: Config, chain: Chain, w: World, st: Scan, p: Poll)
    requires w.process == Polling(st.pos) && w.stored == st.stored && p.Head? && !st.crashed
    ensures var r := Run(cfg, chain, w, Iteration(cfg, chain, st.pos, p));
            var s := Step(MAX_SPAN, cfg.delay, chain, st, p);
            var ids := LogIds(chain, Start(st.pos, p.head), Until(cfg.delay, st.pos, p));
            var returned := |s.calls| - |st.calls| - if s.crashed then 1 else 0;
            && r.process == (if s.crashed then Down else Polling(s.pos)) && r.stored == s.stored
            && 0 <= returned <= |ids|
            && (!s.crashed ==> returned == |ids| && s.pos == Some(Until(cfg.delay, st.pos, p)))
            && r.handled == w.handled + Elements(ids[..returned])
  {
    var window := WindowOf(MAX_SPAN, cfg.delay, st.pos, p);
    if window.Some? && p.fetched {
      var Window(start, end) := window.value;
      FullIteration(cfg, chain, w, st, p, start, end, LogIds(chain, start, end + 1));
    } else {
      IdleIteration(cfg, chain, w, st, p);
    }
  }

  lemma FullIteration(cfg: Config, chain: Chain, w: World, st: Scan, p: Poll, start: nat, end: nat, ids: seq<LogId>)
    requires w.process == Polling(st.pos) && w.stored == st.stored && p.Head? && p.fetched && !st.crashed
    requires WindowOf(MAX_SPAN, cfg.delay, st.pos, p) == Some(Window(start, end))
    requires ids == LogIds(chain, start, end + 1)
    ensures var r := Run(cfg, chain, w, Iteration(cfg, chain, st.pos, p));
            var s := Step(MAX_SPAN, cfg.delay, chain, st, p);
            var returned := |s.calls| - |st.calls| - if s.crashed then 1 else 0;
            && r.process == (if s.crashed then Down else Polling(s.pos)) && r.stored == s.stored
            && 0 <= returned <= |ids| && (!s.crashed ==> returned == |ids| && s.pos == Some(end + 1))
            && r.handled == w.handled + Elements(ids[..returned])
  {
    var logs := Logs(chain, start, end + 1);
    WindowIteration(cfg, chain, w, st.pos, p, start, end, logs, ids);
    StepCompletes(MAX_SPAN, cfg.delay, chain, st, p, start, end);
    AfterReturned(st, logs, p, start, end);
  }

  lemma IdleIteration(cfg: Config, chain: Chain, w: World, st: Scan, p: Poll)
    requires w.process == Polling(st.pos) && p.Head? && !st.crashed
    requires !p.fetched || WindowOf(MAX_SPAN, cfg.delay, st.pos, p).None?
    ensures var r := Run(cfg, chain, w, Iteration(cfg, chain, st.pos, p));
            var pos := Start(st.pos, p.head);
            && r.process == Polling(Some(pos)) && r.stored == w.stored && r.handled == w.handled
            && Step(MAX_SPAN, cfg.delay, chain, st, p) == st.(pos := Some(pos))
            && LogIds(chain, pos, pos) == []
  {
    RunOne(cfg, chain, w, Answer(p));
  }

  /** The calls that return are all of them, or all but the one that panics. */
  lemma AfterReturned(st: Scan, logs: seq<Deposit>, p: Poll, start: nat, end: nat)
    requires p.Head?
    ensures var s, k := After(st, Calls(logs, p.handle), start, end, p.saved), Survived(logs, p.handle);
            && s.crashed == (k < |logs|)
            && |s.calls| - |st.calls| == k + if s.crashed then 1 else 0
  {
    PanickedExactly(logs, p.handle);
  }

  lemma AnswerOpens(cfg: Config, chain: Chain, w: World, pos: Option<nat>, p: Poll, start: nat, end: nat)
    requires w.process == Polling(pos) && p.Head? && p.fetched
    requires WindowOf(MAX_SPAN, cfg.delay, pos, p) == Some(Window(start, end))
    ensures var r := Next(cfg, chain, w, Answer(p));
            r.process == Sending(start, end, 0, p.handle) && r.stored == w.stored && r.handled == w.handled
  {
  }

  lemma WindowIteration(cfg: Config, chain: Chain, w: World, pos: Option<nat>, p: Poll, start: nat, end: nat,
                        logs: seq<Deposit>, ids: seq<LogId>)
    requires w.process == Polling(pos) && p.Head? && p.fetched
    requires WindowOf(MAX_SPAN, cfg.delay, pos, p) == Some(Window(start, end))
    requires logs == Logs(chain, start, end + 1) && ids == LogIds(chain, start, end + 1)
    ensures var r, k := Run(cfg, chain, w, Iteration(cfg, chain, pos, p)), Survived(logs, p.handle);
            && r.process == (if k < |logs| then Down else Polling(Some(end + 1)))
            && r.stored == (if k == |logs| && p.saved then end else w.stored)
            && r.handled == w.handled + Elements(ids[..k])
  {
    var first, handles, last := [Answer(p)], Handles(|logs| + 1), [Save(p.saved), Advance];
    var w1 := Next(cfg, chain, w, Answer(p));
    AnswerOpens(cfg, chain, w, pos, p, start, end);
    var w2 := Run(cfg, chain, w1, handles);
    WindowHandled(cfg, chain, w1, logs, ids);
    var w3 := if w2.process.Down? then w2
              else w2.(process := Polling(Some(end + 1)), stored := if p.saved then end else w2.stored);
    assert Run(cfg, chain, w2, last) == w3 by { WindowEnd(cfg, chain, w2, p.saved); }
    assert Run(cfg, chain, w, first) == w1 by { RunOne(cfg, chain, w, Answer(p)); }
    assert Iteration(cfg, chain, pos, p) == first + handles + last;
    RunThree(cfg, chain, w, first, handles, last, w1, w2, w3);
  }

  lemma WindowEnd(cfg: Config, chain: Chain, w: World, ok: bool)
    requires w.process.Saving? || w.process.Down?
    ensures Run(cfg, chain, w, [Save(ok), Advance])
            == if w.process.Down? then w
               else w.(process := Polling(Some(w.process.end + 1)), stored := if ok then w.process.end else w.stored)
  {
    if w.process.Down? {
      DownStays(cfg, chain, w, [Save(ok), Advance]);
    } else {
      SaveAndAdvance(cfg, chain, w, ok);
    }
  }
}
