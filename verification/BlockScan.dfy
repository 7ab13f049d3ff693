/**
 The block scanner of an EVM chain as a function of its answers: what one iteration of the
 loop does to the position, to the messages sent and to the stored block. The window size is
 a parameter: MAX_SPAN is the listener's, 0 is a scanner that takes one block at a time.
 */
module BlockScan {
  import opened Messages
  import Decimals

  /** The last block of a window is at most this far from its first. */
  const MAX_SPAN: nat := 99

  function Min(a: int, b: int): int {
    if a <= b then a else b
  }

  /** The deposit logs of every block; confirmed blocks keep their logs. */
  type Chain = nat -> seq<Deposit>

  /** An event handler returns a message or an error, or panics; the scanner does not recover. */
  type EventHandler = Deposit -> Outcome<Message>

  /** The remote answers of one iteration. `handle` is the event handler as it answers in that
      iteration; `saved` is whether the block store accepts. */
  datatype Poll = HeadFailed | Head(head: nat, fetched: bool, handle: EventHandler, saved: bool)

  /** A call of the event handler with its answer. */
  datatype Call = Call(deposit: Deposit, answer: Outcome<Message>)

  datatype Window = Window(start: nat, end: nat)

  /** The next block to scan (none before the first head when starting at the head), every call of the
      event handler, every message sent to the channel, the stored block, and whether a call panicked. */
  datatype Scan = Scan(pos: Option<nat>, calls: seq<Call>, sent: seq<Message>, stored: nat, crashed: bool)

  /** The logs of the blocks from `from` up to but not including `until`. */
  function Logs(chain: Chain, from: nat, until: nat): seq<Deposit>
    decreases until
  {
    if from >= until then [] else Logs(chain, from, until - 1) + chain(until - 1)
  }

  /** How many logs are handled before the first one that the handler panics on. */
  function Survived(logs: seq<Deposit>, handle: EventHandler): (k: nat)
    ensures k <= |logs|
    ensures forall i :: 0 <= i < k ==> !handle(logs[i]).Panic?
    ensures k < |logs| ==> handle(logs[k]).Panic?
  {
    if logs == [] then 0
    else
      var n := |logs| - 1;
      var k := Survived(logs[..n], handle);
      if k == n && !handle(logs[n]).Panic? then n + 1 else k
  }

  /** The calls made for these logs: a panic is the last one. */
  function Calls(logs: seq<Deposit>, handle: EventHandler): (calls: seq<Call>)
    ensures |calls| == Min(Survived(logs, handle) + 1, |logs|)
    ensures forall i :: 0 <= i < |calls| ==> calls[i] == Call(logs[i], handle(logs[i]))
  {
    seq(Min(Survived(logs, handle) + 1, |logs|), i requires 0 <= i < |logs| => Call(logs[i], handle(logs[i])))
  }

  predicate Panicked(calls: seq<Call>) {
    calls != [] && calls[|calls| - 1].answer.Panic?
  }

  function Deposits(calls: seq<Call>): (logs: seq<Deposit>)
    ensures |logs| == |calls|
    ensures forall i :: 0 <= i < |calls| ==> logs[i] == calls[i].deposit
  {
    seq(|calls|, i requires 0 <= i < |calls| => calls[i].deposit)
  }

  function Successes(calls: seq<Call>): seq<Message> {
    if calls == [] then []
    else
      var last := calls[|calls| - 1].answer;
      Successes(calls[..|calls| - 1]) + if last.Ok? then [last.value] else []
  }

  function Start(pos: Option<nat>, head: nat): nat {
    if pos.Some? then pos.value else head
  }

  /** The window one iteration asks for, if it asks at all: nothing until the head is `delay` ahead. */
  function WindowOf(span: nat, delay: nat, pos: Option<nat>, p: Poll): Option<Window> {
    if p.HeadFailed? then None
    else
      var start := Start(pos, p.head);
      if p.head - start < delay then None
      else
        var end := p.head - delay;
        Some(Window(start, if end - start > span then start + span else end))
  }

  function Step(span: nat, delay: nat, chain: Chain, st: Scan, p: Poll): Scan {
    if p.HeadFailed? || st.crashed then st
    else
      var w := WindowOf(span, delay, st.pos, p);
      if w.None? || !p.fetched then st.(pos := Some(Start(st.pos, p.head)))
      else Completed(chain, st, p, w.value.start, w.value.end)
  }

  /** The state after a window has been handled. */
  function Completed(chain: Chain, st: Scan, p: Poll, start: nat, end: nat): Scan
    requires p.Head?
  {
    After(st, Calls(Logs(chain, start, end + 1), p.handle), start, end, p.saved)
  }

  /** The state after these calls for the blocks from `start` to `end`: a panic keeps the scanner from
      storing the end and from moving on. */
  function After(st: Scan, calls: seq<Call>, start: nat, end: nat, saved: bool): Scan {
    var all, sent := st.calls + calls, st.sent + Successes(calls);
    if Panicked(calls) then Scan(Some(start), all, sent, st.stored, true)
    else Scan(Some(end + 1), all, sent, if saved then end else st.stored, false)
  }

  function Run(span: nat, delay: nat, chain: Chain, st: Scan, polls: seq<Poll>): Scan {
    if polls == [] then st
    else
      var n := |polls| - 1;
      Step(span, delay, chain, Run(span, delay, chain, st, polls[..n]), polls[n])
  }

  // ---------- sequences of logs and calls ----------

  lemma {:induction false} LogsSplit(chain: Chain, from: nat, mid: nat, until: nat)
    requires from <= mid <= until
    ensures Logs(chain, from, until) == Logs(chain, from, mid) + Logs(chain, mid, until)
    decreases until
  {
    if mid < until {
      LogsSplit(chain, from, mid, until - 1);
    }
  }

  lemma SuccessesSnoc(calls: seq<Call>, j: nat)
    requires j < |calls|
    ensures Successes(calls[..j + 1])
            == Successes(calls[..j]) + if calls[j].answer.Ok? then [calls[j].answer.value] else []
  {
    assert calls[..j + 1][..j] == calls[..j];
  }

  lemma {:induction false} SuccessesConcat(a: seq<Call>, b: seq<Call>)
    ensures Successes(a + b) == Successes(a) + Successes(b)
  {
    if b == [] {
      assert a + b == a;
    } else {
      var n := |b| - 1;
      SuccessesConcat(a, b[..n]);
      assert (a + b)[..|a + b| - 1] == a + b[..n];
    }
  }

  lemma {:induction false} SurvivedConcat(a: seq<Deposit>, b: seq<Deposit>, handle: EventHandler)
    ensures Survived(a + b, handle)
            == if Survived(a, handle) < |a| then Survived(a, handle) else |a| + Survived(b, handle)
  {
    if b == [] {
      assert a + b == a;
    } else {
      var n := |b| - 1;
      SurvivedConcat(a, b[..n], handle);
      assert (a + b)[..|a + b| - 1] == a + b[..n];
    }
  }

  lemma PanickedExactly(logs: seq<Deposit>, handle: EventHandler)
    ensures Panicked(Calls(logs, handle)) <==> Survived(logs, handle) < |logs|
  {
    LastAnswer(logs, handle, Survived(logs, handle), Calls(logs, handle));
  }

  lemma LastAnswer(logs: seq<Deposit>, handle: EventHandler, k: nat, calls: seq<Call>)
    requires k <= |logs| && |calls| == Min(k + 1, |logs|)
    requires forall i :: 0 <= i < k ==> !handle(logs[i]).Panic?
    requires k < |logs| ==> handle(logs[k]).Panic?
    requires forall i :: 0 <= i < |calls| ==> calls[i] == Call(logs[i], handle(logs[i]))
    ensures Panicked(calls) <==> k < |logs|
  {
    var last := |calls| - 1;
    assert last >= 0 ==> calls[last] == Call(logs[last], handle(logs[last]));
  }

  /** Behind a panic no call is made. */
  lemma CallsConcat(a: seq<Deposit>, b: seq<Deposit>, handle: EventHandler)
    ensures Calls(a + b, handle)
            == if Panicked(Calls(a, handle)) then Calls(a, handle) else Calls(a, handle) + Calls(b, handle)
  {
    SurvivedConcat(a, b, handle);
    PanickedExactly(a, handle);
  }

  lemma {:induction false} RunConcat(span: nat, delay: nat, chain: Chain, st: Scan, a: seq<Poll>, b: seq<Poll>)
    ensures Run(span, delay, chain, st, a + b) == Run(span, delay, chain, Run(span, delay, chain, st, a), b)
  {
    if b == [] {
      assert a + b == a;
    } else {
      var n := |b| - 1;
      RunConcat(span, delay, chain, st, a, b[..n]);
      assert (a + b)[..|a + b| - 1] == a + b[..n];
    }
  }

  // ---------- confirmation safety ----------

  /** Every window asked for is non-empty, confirmed, and no wider than allowed. */
  lemma WindowConfirmed(span: nat, delay: nat, pos: Option<nat>, p: Poll)
    ensures var w := WindowOf(span, delay, pos, p);
            w.Some? ==> && w.value.start <= w.value.end <= p.head - delay
                        && w.value.end - w.value.start <= span
                        && w.value.start == Start(pos, p.head)
  {
  }

  /** The listener's window has at most 100 blocks and ends with the last confirmed one, if that is not
      too far. */
  lemma AtMostHundredBlocks(delay: nat, pos: Option<nat>, p: Poll)
    ensures var w := WindowOf(MAX_SPAN, delay, pos, p);
            && (w.Some? <==> p.Head? && p.head - Start(pos, p.head) >= delay)
            && (w.Some? ==>
                  && w.value.end - w.value.start + 1 <= 100
                  && (w.value.end == p.head - delay || (w.value.end == w.value.start + 99 < p.head - delay)))
  {
  }

  /** The answers of an iteration confirm all blocks in front of this position. */
  ghost predicate Confirms(p: Poll, delay: nat, pos: nat) {
    p.Head? && p.fetched && pos + delay <= p.head + 1
  }

  /** Over any run, the scan has moved from its start only over blocks that some head confirmed. */
  lemma {:induction false} OnlyConfirmed(span: nat, delay: nat, chain: Chain, st: Scan, polls: seq<Poll>)
    ensures var r := Run(span, delay, chain, st, polls);
            r.pos == FirstPos(st.pos, polls)
            || (r.pos.Some? && exists i :: 0 <= i < |polls| && Confirms(polls[i], delay, r.pos.value))
            || r.crashed
  {
    if polls != [] {
      var n := |polls| - 1;
      OnlyConfirmed(span, delay, chain, st, polls[..n]);
      FirstPosPrefix(st.pos, polls);
      var mid, r := Run(span, delay, chain, st, polls[..n]), Run(span, delay, chain, st, polls);
      if mid.pos.Some? && r.pos == mid.pos {
        if i :| 0 <= i < n && Confirms(polls[..n][i], delay, mid.pos.value) {
          assert Confirms(polls[i], delay, r.pos.value);
        }
      } else if !r.crashed && WindowOf(span, delay, mid.pos, polls[n]).Some? && polls[n].fetched {
        assert Confirms(polls[n], delay, r.pos.value);
      }
    }
  }

  // ---------- the windowed scan refines the scan of single blocks ----------

  function Repeat(p: Poll, k: nat): (polls: seq<Poll>)
    ensures |polls| == k && forall i :: 0 <= i < k ==> polls[i] == p
  {
    seq(k, _ => p)
  }

  /** The iterations of a one-block scanner that stand for one iteration of the windowed scanner:
      the same answers, once for every block of a window that is fetched. */
  function Expand(span: nat, delay: nat, pos: Option<nat>, p: Poll): seq<Poll> {
    var w := WindowOf(span, delay, pos, p);
    if w.Some? && p.fetched then Repeat(p, w.value.end - w.value.start + 1) else [p]
  }

  function ExpandRun(span: nat, delay: nat, chain: Chain, st: Scan, polls: seq<Poll>): seq<Poll> {
    if polls == [] then []
    else
      var n := |polls| - 1;
      ExpandRun(span, delay, chain, st, polls[..n])
      + Expand(span, delay, Run(span, delay, chain, st, polls[..n]).pos, polls[n])
  }

  /** The windowed scanner and the one-block scanner end alike: after a panic they have made the same
      calls and sent the same messages, and otherwise they are in the very same state. */
  ghost predicate Same(r: Scan, s: Scan) {
    r.calls == s.calls && r.sent == s.sent && r.crashed == s.crashed && (!r.crashed ==> r == s)
  }

  lemma CallsExtend(chain: Chain, handle: EventHandler, start: nat, end: nat)
    requires start <= end
    ensures var all := Calls(Logs(chain, start, end + 1), handle);
            var first, last := Calls(Logs(chain, start, end), handle), Calls(Logs(chain, end, end + 1), handle);
            all == if Panicked(first) then first else first + last
  {
    LogsSplit(chain, start, end, end + 1);
    CallsConcat(Logs(chain, start, end), Logs(chain, end, end + 1), handle);
  }

  /** Calls in two portions are calls at once. */
  lemma AfterTwice(st: Scan, first: seq<Call>, last: seq<Call>, start: nat, mid: nat, end: nat, saved: bool)
    requires !Panicked(first)
    ensures Same(After(After(st, first, start, mid, saved), last, end, end, saved),
                 After(st, first + last, start, end, saved))
  {
    SuccessesConcat(first, last);
    Assoc(st.calls, first, last);
    Assoc(st.sent, Successes(first), Successes(last));
    assert last == [] ==> first + last == first;
  }

  /** Handling a window and then, unless it panicked, the next block is handling the window one block longer. */
  lemma CompletedExtends(chain: Chain, st: Scan, p: Poll, start: nat, end: nat)
    requires p.Head? && start < end
    ensures var before := Completed(chain, st, p, start, end - 1);
            Same(if before.crashed then before else Completed(chain, before, p, end, end),
                 Completed(chain, st, p, start, end))
  {
    CallsExtend(chain, p.handle, start, end);
    var first, last := Calls(Logs(chain, start, end), p.handle), Calls(Logs(chain, end, end + 1), p.handle);
    if !Panicked(first) {
      AfterTwice(st, first, last, start, end - 1, end, p.saved);
    }
  }

  lemma Assoc<T>(a: seq<T>, b: seq<T>, c: seq<T>)
    ensures (a + b) + c == a + (b + c)
  {
  }

  /** k iterations of the one-block scanner with the same answers. */
  function Again(delay: nat, chain: Chain, st: Scan, p: Poll, k: nat): Scan {
    if k == 0 then st else Step(0, delay, chain, Again(delay, chain, st, p, k - 1), p)
  }

  lemma {:induction false} RunRepeat(delay: nat, chain: Chain, st: Scan, p: Poll, k: nat)
    ensures Run(0, delay, chain, st, Repeat(p, k)) == Again(delay, chain, st, p, k)
  {
    if k != 0 {
      RunRepeat(delay, chain, st, p, k - 1);
      assert Repeat(p, k)[..k - 1] == Repeat(p, k - 1);
    }
  }

  /** A one-block scanner takes n blocks in n iterations. */
  lemma {:induction false} BlockByBlock(delay: nat, chain: Chain, st: Scan, p: Poll, start: nat, n: nat, end: nat)
    requires p.Head? && p.fetched && !st.crashed
    requires start == Start(st.pos, p.head) && 0 < n && end == start + n - 1 && end <= p.head - delay
    ensures Same(Again(delay, chain, st, p, n), Completed(chain, st, p, start, end))
  {
    if n == 1 {
      FirstBlock(delay, chain, st, p, start);
    } else {
      BlockByBlock(delay, chain, st, p, start, n - 1, end - 1);
      OneMoreBlock(delay, chain, st, p, Again(delay, chain, st, p, n - 1), start, end);
    }
  }

  lemma OneMoreBlock(delay: nat, chain: Chain, st: Scan, p: Poll, mid: Scan, start: nat, end: nat)
    requires p.Head? && p.fetched && start < end <= p.head - delay
    requires Same(mid, Completed(chain, st, p, start, end - 1))
    ensures Same(Step(0, delay, chain, mid, p), Completed(chain, st, p, start, end))
  {
    CompletedPos(chain, st, p, start, end - 1);
    CompletedExtends(chain, st, p, start, end);
    LaterBlock(delay, chain, p, mid, Completed(chain, st, p, start, end - 1), end, Completed(chain, st, p, start, end));
  }

  lemma CompletedPos(chain: Chain, st: Scan, p: Poll, start: nat, end: nat)
    requires p.Head?
    ensures var r := Completed(chain, st, p, start, end);
            r.pos == Some(if r.crashed then start else end + 1)
  {
  }

  lemma FirstBlock(delay: nat, chain: Chain, st: Scan, p: Poll, start: nat)
    requires p.Head? && p.fetched && !st.crashed && start == Start(st.pos, p.head) <= p.head - delay
    ensures Again(delay, chain, st, p, 1) == Completed(chain, st, p, start, start)
  {
    OneBlock(delay, chain, st, p);
    assert Again(delay, chain, st, p, 0) == st;
  }

  lemma LaterBlock(delay: nat, chain: Chain, p: Poll, mid: Scan, before: Scan, end: nat, r: Scan)
    requires p.Head? && p.fetched && end <= p.head - delay
    requires Same(mid, before) && (!before.crashed ==> before.pos == Some(end))
    requires Same(if before.crashed then before else Completed(chain, before, p, end, end), r)
    ensures Same(Step(0, delay, chain, mid, p), r)
  {
    if !before.crashed {
      OneBlock(delay, chain, before, p);
    }
  }

  /** A one-block scanner that is far enough behind the head handles the block it is at. */
  lemma OneBlock(delay: nat, chain: Chain, st: Scan, p: Poll)
    requires p.Head? && p.fetched && !st.crashed && Start(st.pos, p.head) <= p.head - delay
    ensures Step(0, delay, chain, st, p) == Completed(chain, st, p, Start(st.pos, p.head), Start(st.pos, p.head))
  {
  }

  lemma StepRefines(span: nat, delay: nat, chain: Chain, st: Scan, p: Poll)
    ensures Same(Step(span, delay, chain, st, p), Run(0, delay, chain, st, Expand(span, delay, st.pos, p)))
  {
    var w := WindowOf(span, delay, st.pos, p);
    if st.crashed {
      CrashedStays(0, delay, chain, st, Expand(span, delay, st.pos, p));
    } else if w.Some? && p.fetched {
      WindowRefines(span, delay, chain, st, p, w.value.start, w.value.end);
    } else {
      assert [p][..0] == [];
      assert Run(0, delay, chain, st, []) == st;
    }
  }

  lemma WindowRefines(span: nat, delay: nat, chain: Chain, st: Scan, p: Poll, start: nat, end: nat)
    requires !st.crashed && p.Head? && p.fetched
    requires WindowOf(span, delay, st.pos, p) == Some(Window(start, end))
    ensures Same(Step(span, delay, chain, st, p), Run(0, delay, chain, st, Repeat(p, end - start + 1)))
  {
    StepCompletes(span, delay, chain, st, p, start, end);
    var n := end - start + 1;
    BlockByBlock(delay, chain, st, p, start, n, end);
    RunRepeat(delay, chain, st, p, n);
  }

  lemma StepCompletes(span: nat, delay: nat, chain: Chain, st: Scan, p: Poll, start: nat, end: nat)
    requires !st.crashed && p.Head? && p.fetched
    requires WindowOf(span, delay, st.pos, p) == Some(Window(start, end))
    ensures Step(span, delay, chain, st, p) == Completed(chain, st, p, start, end)
  {
  }

  lemma {:induction false} CrashedStays(span: nat, delay: nat, chain: Chain, st: Scan, polls: seq<Poll>)
    requires st.crashed
    ensures Run(span, delay, chain, st, polls) == st
  {
    if polls != [] {
      CrashedStays(span, delay, chain, st, polls[..|polls| - 1]);
    }
  }

  /** A scan that has crashed, or met all answers, is at its end. */
  lemma EndsThere(span: nat, delay: nat, chain: Chain, st: Scan, polls: seq<Poll>, i: nat)
    requires i <= |polls| && (i == |polls| || Run(span, delay, chain, st, polls[..i]).crashed)
    ensures Run(span, delay, chain, st, polls) == Run(span, delay, chain, st, polls[..i])
  {
    if i == |polls| {
      assert polls[..i] == polls;
    } else {
      assert polls == polls[..i] + polls[i..];
      RunConcat(span, delay, chain, st, polls[..i], polls[i..]);
      CrashedStays(span, delay, chain, Run(span, delay, chain, st, polls[..i]), polls[i..]);
    }
  }

  /** For all heads, failures and handler answers, scanning in windows makes the same calls and sends
      the same messages as scanning block by block, and unless a call panics it ends in the very same
      state (position, calls, messages, stored block). */
  lemma {:induction false} WindowedScanRefinesBlockScan(span: nat, delay: nat, chain: Chain, st: Scan, polls: seq<Poll>)
    ensures Same(Run(span, delay, chain, st, polls),
                 Run(0, delay, chain, st, ExpandRun(span, delay, chain, st, polls)))
  {
    if polls != [] {
      var n := |polls| - 1;
      WindowedScanRefinesBlockScan(span, delay, chain, st, polls[..n]);
      var mid := Run(span, delay, chain, st, polls[..n]);
      var before, last := ExpandRun(span, delay, chain, st, polls[..n]), Expand(span, delay, mid.pos, polls[n]);
      RunConcat(0, delay, chain, st, before, last);
      if mid.crashed {
        CrashedStays(0, delay, chain, Run(0, delay, chain, st, before), last);
      } else {
        StepRefines(span, delay, chain, mid, polls[n]);
      }
    }
  }

  // ---------- every log exactly once, in order ----------

  /** Where a launch starts scanning: the given position, or the first head it sees. */
  function FirstPos(pos: Option<nat>, polls: seq<Poll>): Option<nat> {
    if pos.Some? || polls == [] then pos
    else if polls[0].Head? then Some(polls[0].head)
    else FirstPos(pos, polls[1..])
  }

  lemma {:induction false} FirstPosPrefix(pos: Option<nat>, polls: seq<Poll>)
    requires polls != []
    ensures var n := |polls| - 1;
            FirstPos(pos, polls) == var f := FirstPos(pos, polls[..n]);
                                    if f.None? && polls[n].Head? then Some(polls[n].head) else f
  {
    if |polls| > 1 && pos.None? && !polls[0].Head? {
      FirstPosPrefix(pos, polls[1..]);
      assert polls[1..][..|polls| - 2] == polls[..|polls| - 1][1..];
    }
  }

  /** The event handler was called once, in order, for every log from `first` to the position, or, if a
      call panicked, on into the window there up to that call; the messages sent are its successful
      answers, and the stored block is `before` or was scanned. */
  ghost predicate Faithful(span: nat, chain: Chain, before: nat, first: Option<nat>, r: Scan) {
    && r.pos.Some? == first.Some?
    && r.sent == Successes(r.calls)
    && (forall i :: 0 <= i < |r.calls| ==> (r.calls[i].answer.Panic? <==> r.crashed && i == |r.calls| - 1))
    && (first.None? ==> r.calls == [] && r.stored == before && !r.crashed)
    && (first.Some? ==>
          && first.value <= r.pos.value
          && (r.stored == before || first.value <= r.stored < r.pos.value)
          && (!r.crashed ==> Deposits(r.calls) == Logs(chain, first.value, r.pos.value))
          && (r.crashed ==> Logs(chain, first.value, r.pos.value) < Deposits(r.calls)
                            && Deposits(r.calls) <= Logs(chain, first.value, r.pos.value + span + 1)))
  }

  /** The deposits of the calls made for `logs`, after others, are a piece of all these logs. */
  lemma MoreDeposits(before: seq<Call>, logs: seq<Deposit>, handle: EventHandler)
    ensures var calls := Calls(logs, handle);
            && Deposits(before + calls) == Deposits(before) + logs[..|calls|]
            && (!Panicked(calls) ==> |calls| == |logs|)
            && (Panicked(calls) ==> |calls| > 0)
  {
    PanickedExactly(logs, handle);
  }

  lemma CompletedFaithful(span: nat, chain: Chain, before: nat, first: nat, r: Scan, p: Poll, start: nat, end: nat)
    requires Faithful(span, chain, before, if r.pos.Some? then Some(first) else None, r) && !r.crashed
    requires p.Head? && start <= end <= start + span
    requires start == if r.pos.Some? then r.pos.value else first
    ensures Faithful(span, chain, before, Some(first), Completed(chain, r, p, start, end))
  {
    assert Deposits(r.calls) == Logs(chain, first, start) by { assert r.pos.None? ==> Logs(chain, first, start) == []; }
    var logs := Logs(chain, start, end + 1);
    CompletedDeposits(span, chain, first, r.calls, p, start, end);
    LastPanics(r.calls, logs, p.handle);
    AfterFaithful(span, chain, before, first, r, Calls(logs, p.handle), start, end, p.saved);
  }

  lemma AfterFaithful(span: nat, chain: Chain, before: nat, first: nat, r: Scan, calls: seq<Call>,
                      start: nat, end: nat, saved: bool)
    requires r.sent == Successes(r.calls) && first <= start <= end
    requires r.stored == before || first <= r.stored < start
    requires var all := r.calls + calls;
             forall i :: 0 <= i < |all| ==> (all[i].answer.Panic? <==> Panicked(calls) && i == |all| - 1)
    requires var all := Deposits(r.calls + calls);
             && (!Panicked(calls) ==> all == Logs(chain, first, end + 1))
             && (Panicked(calls) ==> Logs(chain, first, start) < all && all <= Logs(chain, first, start + span + 1))
    ensures Faithful(span, chain, before, Some(first), After(r, calls, start, end, saved))
  {
    SuccessesConcat(r.calls, calls);
  }

  lemma CompletedDeposits(span: nat, chain: Chain, first: nat, before: seq<Call>, p: Poll, start: nat, end: nat)
    requires Deposits(before) == Logs(chain, first, start)
    requires p.Head? && first <= start <= end <= start + span
    ensures var calls := Calls(Logs(chain, start, end + 1), p.handle);
            var all := Deposits(before + calls);
            && (!Panicked(calls) ==> all == Logs(chain, first, end + 1))
            && (Panicked(calls) ==> Logs(chain, first, start) < all && all <= Logs(chain, first, start + span + 1))
  {
    LogsSplit(chain, first, start, end + 1);
    LogsSplit(chain, first, end + 1, start + span + 1);
    CallsDeposits(before, Logs(chain, start, end + 1), Logs(chain, end + 1, start + span + 1), p.handle);
  }

  lemma CallsDeposits(before: seq<Call>, logs: seq<Deposit>, rest: seq<Deposit>, handle: EventHandler)
    ensures var calls := Calls(logs, handle);
            var done, all := Deposits(before), Deposits(before + calls);
            && (!Panicked(calls) ==> all == done + logs)
            && (Panicked(calls) ==> done < all && all <= done + logs + rest)
  {
    MoreDeposits(before, logs, handle);
    PiecePrefix(Deposits(before), logs, rest, |Calls(logs, handle)|);
  }

  lemma PiecePrefix<T>(a: seq<T>, b: seq<T>, c: seq<T>, k: nat)
    requires k <= |b|
    ensures a + b[..k] <= a + b + c
    ensures k > 0 ==> a < a + b[..k]
    ensures k == |b| ==> a + b[..k] == a + b
  {
  }

  lemma LastPanics(before: seq<Call>, logs: seq<Deposit>, handle: EventHandler)
    requires forall i :: 0 <= i < |before| ==> !before[i].answer.Panic?
    ensures var calls := before + Calls(logs, handle);
            forall i :: 0 <= i < |calls| ==>
              (calls[i].answer.Panic? <==> Panicked(Calls(logs, handle)) && i == |calls| - 1)
  {
    PanickedExactly(logs, handle);
  }

  /** Within a launch every log from the start to the current position is handled exactly once. */
  lemma {:induction false} ScannedExactlyOnce(span: nat, delay: nat, chain: Chain, st: Scan, polls: seq<Poll>)
    requires st.calls == [] && st.sent == [] && !st.crashed
    ensures Faithful(span, chain, st.stored, FirstPos(st.pos, polls), Run(span, delay, chain, st, polls))
  {
    if polls != [] {
      var n := |polls| - 1;
      ScannedExactlyOnce(span, delay, chain, st, polls[..n]);
      FirstPosPrefix(st.pos, polls);
      var mid := Run(span, delay, chain, st, polls[..n]);
      var w := WindowOf(span, delay, mid.pos, polls[n]);
      if !mid.crashed && w.Some? && polls[n].fetched {
        WindowConfirmed(span, delay, mid.pos, polls[n]);
        var first := FirstPos(st.pos, polls).value;
        CompletedFaithful(span, chain, st.stored, first, mid, polls[n], w.value.start, w.value.end);
      }
    }
  }

  // ---------- catching up ----------

  /** The position alone, as long as no call panics. */
  function NextPos(span: nat, delay: nat, pos: Option<nat>, p: Poll): Option<nat> {
    if p.HeadFailed? then pos
    else
      var w := WindowOf(span, delay, pos, p);
      if w.None? || !p.fetched then Some(Start(pos, p.head)) else Some(w.value.end + 1)
  }

  function Positions(span: nat, delay: nat, pos: Option<nat>, polls: seq<Poll>): Option<nat> {
    if polls == [] then pos
    else NextPos(span, delay, Positions(span, delay, pos, polls[..|polls| - 1]), polls[|polls| - 1])
  }

  /** The handler panics on these deposits, and on no other ones. */
  ghost predicate PanicsOn(handle: EventHandler, poison: Deposit -> bool) {
    forall d: Deposit :: handle(d).Panic? <==> poison(d)
  }

  ghost predicate Clear(logs: seq<Deposit>, poison: Deposit -> bool) {
    forall i :: 0 <= i < |logs| ==> !poison(logs[i])
  }

  lemma ClearConcat(a: seq<Deposit>, b: seq<Deposit>, poison: Deposit -> bool)
    ensures Clear(a + b, poison) <==> Clear(a, poison) && Clear(b, poison)
  {
    assert forall i :: 0 <= i < |a| ==> (a + b)[i] == a[i];
    assert forall i :: 0 <= i < |b| ==> (a + b)[|a| + i] == b[i];
  }

  lemma PositionsForward(span: nat, delay: nat, pos: Option<nat>, p: Poll)
    requires pos.Some?
    ensures var next := NextPos(span, delay, pos, p);
            next.Some? && pos.value <= next.value
  {
  }

  /** A launch has a position as soon as it has a start, and the position only moves forward. */
  lemma {:induction false} PositionsFrom(span: nat, delay: nat, pos: Option<nat>, polls: seq<Poll>)
    ensures var first, end := FirstPos(pos, polls), Positions(span, delay, pos, polls);
            && (first.Some? <==> end.Some?)
            && (first.Some? ==> first.value <= end.value)
  {
    if polls != [] {
      FirstPosPrefix(pos, polls);
      PositionsFrom(span, delay, pos, polls[..|polls| - 1]);
    }
  }

  /** The logs between two positions, if there are such. */
  function Between(chain: Chain, first: Option<nat>, end: Option<nat>): seq<Deposit> {
    if first.Some? && end.Some? then Logs(chain, first.value, end.value) else []
  }

  lemma BetweenSplit(chain: Chain, first: Option<nat>, mid: Option<nat>, end: Option<nat>, poison: Deposit -> bool)
    requires first.Some? && mid.Some? && end.Some? && first.value <= mid.value <= end.value
    ensures Clear(Between(chain, first, end), poison)
            <==> Clear(Between(chain, first, mid), poison) && Clear(Between(chain, mid, end), poison)
  {
    LogsSplit(chain, first.value, mid.value, end.value);
    ClearConcat(Logs(chain, first.value, mid.value), Logs(chain, mid.value, end.value), poison);
  }

  /** One iteration crashes the scanner exactly when its window holds a deposit the handler panics on. */
  lemma StepCrashes(span: nat, delay: nat, chain: Chain, st: Scan, p: Poll, first: Option<nat>, poison: Deposit -> bool)
    requires !st.crashed && (p.Head? ==> PanicsOn(p.handle, poison))
    requires first == if st.pos.None? && p.Head? then Some(p.head) else st.pos
    ensures var r, next := Step(span, delay, chain, st, p), NextPos(span, delay, st.pos, p);
            && (r.crashed <==> !Clear(Between(chain, first, next), poison))
            && (!r.crashed ==> r.pos == next)
  {
    var w := WindowOf(span, delay, st.pos, p);
    if w.Some? && p.fetched {
      StepCompletes(span, delay, chain, st, p, w.value.start, w.value.end);
      PanickedOnPoison(Logs(chain, w.value.start, w.value.end + 1), p.handle, poison);
    } else {
      assert first.Some? ==> Logs(chain, first.value, first.value) == [];
    }
  }

  lemma PanickedOnPoison(logs: seq<Deposit>, handle: EventHandler, poison: Deposit -> bool)
    requires PanicsOn(handle, poison)
    ensures Panicked(Calls(logs, handle)) <==> !Clear(logs, poison)
  {
    PanickedExactly(logs, handle);
    var k := Survived(logs, handle);
    assert k < |logs| ==> poison(logs[k]);
  }

  /** A launch crashes exactly when a log from its start, given or the first head, to where it would
      otherwise be is one the handler panics on, and otherwise is where the heads, the delay and the
      failures take it. */
  lemma {:induction false} CrashesExactly(span: nat, delay: nat, chain: Chain, st: Scan, polls: seq<Poll>,
                                          poison: Deposit -> bool)
    requires !st.crashed
    requires forall i :: 0 <= i < |polls| ==> polls[i].Head? ==> PanicsOn(polls[i].handle, poison)
    ensures var r, end := Run(span, delay, chain, st, polls), Positions(span, delay, st.pos, polls);
            && (r.crashed <==> !Clear(Between(chain, FirstPos(st.pos, polls), end), poison))
            && (!r.crashed ==> r.pos == end)
  {
    if polls == [] {
      assert st.pos.Some? ==> Logs(chain, st.pos.value, st.pos.value) == [];
    } else {
      var n := |polls| - 1;
      CrashesExactly(span, delay, chain, st, polls[..n], poison);
      FirstPosPrefix(st.pos, polls);
      PositionsFrom(span, delay, st.pos, polls[..n]);
      var mid, first := Run(span, delay, chain, st, polls[..n]), FirstPos(st.pos, polls[..n]);
      OneMoreCrashes(span, delay, chain, mid, polls[n], first, Positions(span, delay, st.pos, polls[..n]), poison);
    }
  }

  lemma OneMoreCrashes(span: nat, delay: nat, chain: Chain, mid: Scan, p: Poll, first: Option<nat>, pos: Option<nat>,
                       poison: Deposit -> bool)
    requires p.Head? ==> PanicsOn(p.handle, poison)
    requires first.Some? == pos.Some? && (first.Some? ==> first.value <= pos.value)
    requires mid.crashed <==> !Clear(Between(chain, first, pos), poison)
    requires !mid.crashed ==> mid.pos == pos
    ensures var r, next := Step(span, delay, chain, mid, p), NextPos(span, delay, pos, p);
            var first' := if first.None? && p.Head? then Some(p.head) else first;
            && (r.crashed <==> !Clear(Between(chain, first', next), poison))
            && (!r.crashed ==> r.pos == next)
  {
    if pos.Some? {
      PositionsForward(span, delay, pos, p);
      BetweenSplit(chain, first, pos, NextPos(span, delay, pos, p), poison);
    }
    if !mid.crashed {
      StepCrashes(span, delay, chain, mid, p, if pos.None? && p.Head? then Some(p.head) else pos, poison);
    }
  }

  /** The number of iterations of a run that advance the position past a window. */
  function Advances(span: nat, delay: nat, pos: Option<nat>, polls: seq<Poll>): nat {
    if polls == [] then 0
    else
      var n := |polls| - 1;
      var mid := Positions(span, delay, pos, polls[..n]);
      Advances(span, delay, pos, polls[..n])
      + if WindowOf(span, delay, mid, polls[n]).Some? && polls[n].fetched then 1 else 0
  }

  /** Confirmed blocks not yet scanned: the measure that decreases to zero. */
  function Backlog(delay: nat, head: nat, pos: nat): nat {
    if head - delay + 1 > pos then head - delay + 1 - pos else 0
  }

  /** The windows a backlog takes: one for every span + 1 blocks of it that are started. */
  function Rounds(backlog: nat, span: nat): nat {
    if backlog == 0 then 0
    else if backlog <= span + 1 then 1
    else 1 + Rounds(backlog - (span + 1), span)
  }

  /** With a fixed head and no failures the scan advances once for every window its backlog takes, a
      quotient rounded up, and then idles right behind the last confirmed block; it crashes on the way
      exactly when one of the logs up to there is one that the handler panics on. */
  lemma CatchesUp(span: nat, delay: nat, chain: Chain, st: Scan, head: nat, polls: seq<Poll>, poison: Deposit -> bool)
    requires !st.crashed && (st.pos.Some? || polls != [])
    requires forall i :: 0 <= i < |polls| ==> polls[i].Head? && polls[i].head == head && polls[i].fetched
    requires forall i :: 0 <= i < |polls| ==> PanicsOn(polls[i].handle, poison)
    ensures var r, end := Run(span, delay, chain, st, polls), Positions(span, delay, st.pos, polls);
            var start := Start(st.pos, head);
            && end.Some?
            && var backlog, left := Backlog(delay, head, start), Backlog(delay, head, end.value);
            && end.value == start + backlog - left
            && Advances(span, delay, st.pos, polls) == Min(Rounds(backlog, span), |polls|)
            && (|polls| >= Rounds(backlog, span) <==> left == 0)
            && (r.crashed <==> !Clear(Logs(chain, start, end.value), poison))
            && (!r.crashed ==> r.pos == end)
  {
    CrashesExactly(span, delay, chain, st, polls, poison);
    SteadyStart(span, delay, st.pos, head, polls);
    PositionsCatchUp(span, delay, Start(st.pos, head), head, polls);
  }

  /** With a fixed head, starting at the head is starting at that block. */
  lemma {:induction false} SteadyStart(span: nat, delay: nat, pos: Option<nat>, head: nat, polls: seq<Poll>)
    requires pos.Some? || polls != []
    requires forall i :: 0 <= i < |polls| ==> polls[i].Head? && polls[i].head == head && polls[i].fetched
    ensures var start := Some(Start(pos, head));
            && FirstPos(pos, polls) == start
            && Positions(span, delay, pos, polls) == Positions(span, delay, start, polls)
            && Advances(span, delay, pos, polls) == Advances(span, delay, start, polls)
  {
    if pos.None? {
      var n := |polls| - 1;
      if n == 0 {
        assert polls[..n] == [];
      } else {
        SteadyStart(span, delay, pos, head, polls[..n]);
      }
    }
  }

  lemma {:induction false} PositionsCatchUp(span: nat, delay: nat, pos: nat, head: nat, polls: seq<Poll>)
    requires forall i :: 0 <= i < |polls| ==> polls[i].Head? && polls[i].head == head && polls[i].fetched
    ensures var end := Positions(span, delay, Some(pos), polls);
            && end.Some?
            && var backlog, left := Backlog(delay, head, pos), Backlog(delay, head, end.value);
            && end.value == pos + backlog - left
            && Advances(span, delay, Some(pos), polls) + Rounds(left, span) == Rounds(backlog, span)
            && (Advances(span, delay, Some(pos), polls) == |polls|
                || (left == 0 && Advances(span, delay, Some(pos), polls) < |polls|))
  {
    if polls != [] {
      var n := |polls| - 1;
      PositionsCatchUp(span, delay, pos, head, polls[..n]);
      CatchUpStep(span, delay, Positions(span, delay, Some(pos), polls[..n]).value, head, polls[n]);
    }
  }

  lemma CatchUpStep(span: nat, delay: nat, pos: nat, head: nat, p: Poll)
    requires p.Head? && p.head == head && p.fetched
    ensures var next := NextPos(span, delay, Some(pos), p);
            && next.Some?
            && var backlog, left := Backlog(delay, head, pos), Backlog(delay, head, next.value);
            && next.value == pos + backlog - left
            && Rounds(backlog, span) == Rounds(left, span) + (if backlog > 0 then 1 else 0)
            && (WindowOf(span, delay, Some(pos), p).Some? <==> backlog > 0)
  {
  }

  /** The windows a backlog takes are a quotient, rounded up. */
  lemma {:induction false} RoundsIsQuotient(backlog: nat, span: nat)
    ensures Rounds(backlog, span) == (backlog + span) / (span + 1)
  {
    var size := span + 1;
    if backlog > size {
      RoundsIsQuotient(backlog - size, span);
      var q := Rounds(backlog - size, span);
      assert q * size <= backlog - size + span < q * size + size;
      assert (q + 1) * size == q * size + size;
      Decimals.QuotientIs(backlog + span, size, q + 1);
    } else {
      assert 0 * size == 0 && 1 * size == size;
      Decimals.QuotientIs(backlog + span, size, if backlog == 0 then 0 else 1);
    }
  }
}
