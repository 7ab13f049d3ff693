/**
 Whole runs of the forwarder's nonce: concurrent transactions that take turns at a mutex, failed
 sends, failed stores, crashes between any two steps and restarts. An event that does not apply
 in a state changes nothing, so every sequence of events is a run.
 */
module NonceRuns {
  import opened Bytes
  import opened Messages

  /** How far the transaction holding the mutex has come. */
  datatype Phase = Entered | Ready | Acknowledged | Leaving(increased: bool) | Stored

  /** `nonce` is the one in memory, `onchain` the forwarder contract's; `sent` are the nonces of the
      acknowledged sends in order, the first `saved` of which preceded a successful store, and `lost`
      are those the process died on before such a store. The last three are history. */
  datatype World = World(alive: bool, nonce: Option<nat>, holder: Option<Phase>, stored: nat, onchain: nat,
                         sent: seq<int>, saved: nat, lost: set<nat>)

  datatype Event =
    | Acquire
    | Load(readable: bool, answered: bool)
    | Abandon
    | Send
    | Increase
    | Store(ok: bool)
    | Release
    | Crash
    | Restart
    | Mined(onchain: nat)

  function Max(a: nat, b: nat): (m: nat)
    ensures m >= a && m >= b && (m == a || m == b)
  {
    if a >= b then a else b
  }

  /** The nonce a fresh process starts from: the higher one of storage and contract. */
  function Recovered(w: World): nat {
    Max(w.stored, w.onchain)
  }

  function Range(from: nat, until: nat): (s: set<nat>)
    ensures forall i: nat :: i in s <==> from <= i < until
  {
    if from >= until then {} else Range(from, until - 1) + {until - 1}
  }

  function Die(w: World): World {
    w.(alive := false, nonce := None, holder := None, lost := w.lost + Range(w.saved, |w.sent|))
  }

  function Next(w: World, e: Event): World {
    match e
    case Acquire => if w.alive && w.holder.None? then w.(holder := Some(Entered)) else w
    case Load(readable, answered) =>
      if w.holder != Some(Entered) then w
      else if w.nonce.Some? then w.(holder := Some(Ready))
      else if readable && answered then w.(nonce := Some(Recovered(w)), holder := Some(Ready))
      // the deferred unlock stores a nonce that was never set, and panics
      else Die(w)
    case Abandon => if w.holder == Some(Ready) then w.(holder := Some(Leaving(false))) else w
    case Send =>
      if w.holder == Some(Ready) && w.nonce.Some? then
        w.(sent := w.sent + [Int64(w.nonce.value)], holder := Some(Acknowledged))
      else w
    case Increase =>
      if w.holder == Some(Acknowledged) && w.nonce.Some? then
        w.(nonce := Some(w.nonce.value + 1), holder := Some(Leaving(true)))
      else w
    case Store(ok) =>
      if w.holder.Some? && w.holder.value.Leaving? && w.nonce.Some? then
        if ok then w.(stored := w.nonce.value, saved := |w.sent|, holder := Some(Stored))
        else w.(holder := Some(Stored))
      else w
    case Release => if w.holder == Some(Stored) then w.(holder := None) else w
    case Crash => Die(w)
    case Restart => w.(alive := true)
    case Mined(n) => w.(onchain := Max(w.onchain, n))
  }

  function Run(w: World, events: seq<Event>): World {
    if events == [] then w else Next(Run(w, events[..|events| - 1]), events[|events| - 1])
  }

  function Initial(stored: nat, onchain: nat): World {
    World(false, None, None, stored, onchain, [], 0, {})
  }

  /** The nonce in memory stays below 2^63 all along. */
  ghost predicate InRange(w: World, events: seq<Event>) {
    && (events != [] ==> InRange(w, events[..|events| - 1]))
    && var n := Run(w, events).nonce;
       n.Some? ==> n.value < TWO_63
  }

  // ---------- without any assumption on the store ----------

  ghost predicate Kept(w: World, i: nat) {
    i < |w.sent| && i !in w.lost
  }

  ghost predicate Inv(w: World) {
    && (!w.alive ==> w.holder.None?)
    && (w.holder.Some? && w.holder != Some(Entered) ==> w.nonce.Some?)
    && w.saved <= |w.sent|
    && (w.nonce.Some? ==> w.stored <= w.nonce.value)
    && (w.nonce.None? ==> forall i: nat :: w.saved <= i < |w.sent| ==> i in w.lost)
    && (forall i: nat :: Kept(w, i) && i < w.saved ==> w.sent[i] < w.stored)
    && (w.nonce.Some? ==> forall i: nat :: Kept(w, i) ==>
          w.sent[i] < w.nonce.value
          || (w.holder == Some(Acknowledged) && i == |w.sent| - 1 && w.sent[i] == w.nonce.value))
    && (forall i: nat, j: nat :: i < j < |w.sent| && Kept(w, i) ==> w.sent[i] < w.sent[j])
  }

  lemma NextKeepsInv(w: World, e: Event)
    requires Inv(w) && (w.nonce.Some? ==> w.nonce.value < TWO_63)
    ensures Inv(Next(w, e))
  {
    var w' := Next(w, e);
    assert forall i: nat :: Kept(w', i) && i < |w.sent| ==> Kept(w, i);
  }

  lemma {:induction false} RunKeepsInv(w: World, events: seq<Event>)
    requires Inv(w) && InRange(w, events)
    ensures Inv(Run(w, events))
  {
    if events != [] {
      RunKeepsInv(w, events[..|events| - 1]);
      NextKeepsInv(Run(w, events[..|events| - 1]), events[|events| - 1]);
    }
  }

  /** A nonce is used again, or undercut, only after the process died between its send and the next
      successful store. In particular a process that does not die sends strictly increasing nonces. */
  lemma ReusedOnlyIfLost(stored: nat, onchain: nat, events: seq<Event>, i: nat, j: nat)
    requires InRange(Initial(stored, onchain), events)
    requires i < j < |Run(Initial(stored, onchain), events).sent|
    ensures var w := Run(Initial(stored, onchain), events);
            w.sent[j] <= w.sent[i] ==> i in w.lost
  {
    RunKeepsInv(Initial(stored, onchain), events);
    assert i !in Run(Initial(stored, onchain), events).lost ==> Kept(Run(Initial(stored, onchain), events), i);
  }

  // ---------- when every store succeeds ----------

  ghost predicate NonDecreasing(sent: seq<int>) {
    forall i: nat, j: nat :: i < j < |sent| ==> sent[i] <= sent[j]
  }

  /** What is not yet stored is at most the last send, and a fresh process finds the rest. */
  ghost predicate Covered(w: World) {
    && (w.nonce.Some? ==>
          w.nonce.value <= Recovered(w) + if w.holder == Some(Leaving(true)) then 1 else 0)
    && (w.nonce.Some? ==> forall i: nat :: i < |w.sent| ==> w.sent[i] <= w.nonce.value)
    && (forall i: nat :: i < |w.sent| ==> w.sent[i] <= Recovered(w))
    && (forall i: nat, j: nat :: i < j < |w.sent| ==> w.sent[i] <= w.sent[j])
    && (forall i: nat :: w.saved <= i < |w.sent| && i !in w.lost ==> i == |w.sent| - 1)
    && (w.holder !in {Some(Acknowledged), Some(Leaving(true))} ==>
          forall i: nat :: w.saved <= i < |w.sent| ==> i in w.lost)
  }

  lemma NextKeepsCovered(w: World, e: Event)
    requires Inv(w) && Covered(w) && e != Store(false)
    requires w.nonce.Some? ==> w.nonce.value < TWO_63
    ensures Covered(Next(w, e))
  {
    match e
    case Send => SendKeepsCovered(w);
    case Increase => IncreaseKeepsCovered(w);
    case Store(_) => StoreKeepsCovered(w);
    case Crash => DieKeepsCovered(w);
    case Load(_, _) => LoadKeepsCovered(w, e);
    case Acquire =>
    case Abandon =>
    case Release =>
    case Restart =>
    case Mined(_) =>
  }

  lemma SendKeepsCovered(w: World)
    requires Inv(w) && Covered(w)
    requires w.nonce.Some? ==> w.nonce.value < TWO_63
    ensures Covered(Next(w, Send))
  {
  }

  lemma IncreaseKeepsCovered(w: World)
    requires Inv(w) && Covered(w)
    ensures Covered(Next(w, Increase))
  {
  }

  lemma StoreKeepsCovered(w: World)
    requires Inv(w) && Covered(w)
    ensures Covered(Next(w, Store(true)))
  {
  }

  lemma DieKeepsCovered(w: World)
    requires Inv(w) && Covered(w)
    ensures Covered(Die(w))
  {
  }

  lemma LoadKeepsCovered(w: World, e: Event)
    requires Inv(w) && Covered(w) && e.Load?
    ensures Covered(Next(w, e))
  {
    if w.holder == Some(Entered) && w.nonce.None? && !(e.readable && e.answered) {
      DieKeepsCovered(w);
    }
  }

  lemma {:induction false} RunKeepsCovered(w: World, events: seq<Event>)
    requires Inv(w) && Covered(w) && InRange(w, events) && Store(false) !in events
    ensures Covered(Run(w, events))
  {
    if events != [] {
      var n := |events| - 1;
      RunKeepsInv(w, events[..n]);
      RunKeepsCovered(w, events[..n]);
      NextKeepsCovered(Run(w, events[..n]), events[n]);
    }
  }

  /** When no store fails, the nonces sent never decrease, over any crashes and restarts; a nonce is
      repeated only if the process died between its send and its store; and at any moment at most the
      last send is exposed to that. */
  lemma NoncesNeverDecrease(stored: nat, onchain: nat, events: seq<Event>)
    requires InRange(Initial(stored, onchain), events) && Store(false) !in events
    ensures var w := Run(Initial(stored, onchain), events);
            && NonDecreasing(w.sent)
            && (forall i: nat, j: nat :: i < j < |w.sent| && w.sent[i] == w.sent[j] ==> i in w.lost)
            && (forall i: nat :: w.saved <= i < |w.sent| && i !in w.lost ==> i == |w.sent| - 1)
  {
    RunKeepsCovered(Initial(stored, onchain), events);
    var w := Run(Initial(stored, onchain), events);
    forall i: nat, j: nat | i < j < |w.sent| && w.sent[i] == w.sent[j]
      ensures i in w.lost
    {
      ReusedOnlyIfLost(stored, onchain, events, i, j);
    }
  }

  // ---------- both exceptions happen ----------

  ghost predicate Steps(worlds: seq<World>, events: seq<Event>) {
    && |worlds| == |events| + 1
    && forall k :: 0 <= k < |events| ==> worlds[k + 1] == Next(worlds[k], events[k])
  }

  lemma {:induction false} StepsAreRun(worlds: seq<World>, events: seq<Event>)
    requires Steps(worlds, events)
    ensures worlds[|events|] == Run(worlds[0], events)
  {
    if events != [] {
      var n := |events| - 1;
      StepsAreRun(worlds[..n + 1], events[..n]);
    }
  }

  lemma {:induction false} RunConcat(w: World, a: seq<Event>, b: seq<Event>)
    ensures Run(w, a + b) == Run(Run(w, a), b)
  {
    if b == [] {
      assert a + b == a;
    } else {
      var n := |b| - 1;
      RunConcat(w, a, b[..n]);
      assert (a + b)[..|a + b| - 1] == a + b[..n];
    }
  }

  lemma RunThree(w: World, a: seq<Event>, b: seq<Event>, c: seq<Event>)
    ensures Run(w, a + b + c) == Run(Run(Run(w, a), b), c)
  {
    RunConcat(w, a + b, c);
    RunConcat(w, a, b);
  }

  /** The nonce the next transaction uses. */
  function Upcoming(w: World): nat {
    if w.nonce.Some? then w.nonce.value else Recovered(w)
  }

  const ENTER: seq<Event> := [Acquire, Load(true, true)]
  const SEND: seq<Event> := [Send, Increase]
  const RELAUNCH: seq<Event> := [Crash, Restart]

  lemma RunTwo(w: World, a: Event, b: Event)
    ensures Run(w, [a]) == Next(w, a)
    ensures Run(w, [a, b]) == Next(Next(w, a), b)
  {
    StepsAreRun([w, Next(w, a)], [a]);
    StepsAreRun([w, Next(w, a), Next(Next(w, a), b)], [a, b]);
  }

  lemma EnterRun(w: World)
    requires w.alive && w.holder.None?
    ensures Run(w, ENTER) == w.(nonce := Some(Upcoming(w)), holder := Some(Ready))
  {
    RunTwo(w, Acquire, Load(true, true));
  }

  lemma SendRun(w: World)
    requires w.holder == Some(Ready) && w.nonce.Some?
    ensures Run(w, SEND) == w.(nonce := Some(w.nonce.value + 1), sent := w.sent + [Int64(w.nonce.value)],
                               holder := Some(Leaving(true)))
  {
    RunTwo(w, Send, Increase);
  }

  lemma LeaveRun(w: World, increased: bool, ok: bool)
    requires w.holder == Some(Leaving(increased)) && w.nonce.Some?
    ensures Run(w, [Store(ok), Release])
         == w.(holder := None, stored := if ok then w.nonce.value else w.stored,
               saved := if ok then |w.sent| else w.saved)
  {
    RunTwo(w, Store(ok), Release);
  }

  lemma WorkAndLeave(w: World, sends: bool, ok: bool)
    requires w.holder == Some(Ready) && w.nonce.Some?
    ensures var n := w.nonce.value;
            var after := if sends then n + 1 else n;
            var sent := w.sent + if sends then [Int64(n)] else [];
            Run(Run(w, if sends then [Send, Increase] else [Abandon]), [Store(ok), Release])
            == w.(nonce := Some(after), sent := sent, holder := None,
                  stored := if ok then after else w.stored, saved := if ok then |sent| else w.saved)
  {
    if sends {
      SendRun(w);
      LeaveRun(Run(w, SEND), true, ok);
    } else {
      RunTwo(w, Abandon, Abandon);
      LeaveRun(Run(w, [Abandon]), false, ok);
    }
  }

  /** A fresh process sends the nonce it finds. */
  lemma FreshSend(w: World)
    ensures var w' := Run(w, RELAUNCH + ENTER + SEND);
            && w'.sent == w.sent + [Int64(Recovered(w))]
            && w'.stored == w.stored && w'.onchain == w.onchain
  {
    RunThree(w, RELAUNCH, ENTER, SEND);
    RunTwo(w, Crash, Restart);
    EnterRun(Run(w, RELAUNCH));
    SendRun(Run(Run(w, RELAUNCH), ENTER));
  }

  /** A crash between a send and its store: the next process sends the same nonce. */
  lemma CrashRepeatsNonce(stored: nat, onchain: nat)
    ensures var events := RELAUNCH + ENTER + SEND;
            var nonce := Int64(Max(stored, onchain));
            Run(Initial(stored, onchain), events + events).sent == [nonce, nonce]
  {
    var events := RELAUNCH + ENTER + SEND;
    RunConcat(Initial(stored, onchain), events, events);
    FreshSend(Initial(stored, onchain));
    FreshSend(Run(Initial(stored, onchain), events));
  }

  /** A transaction up to its acknowledged send. */
  const SHOT: seq<Event> := ENTER + [Send]

  /** Its end, when the store fails. */
  const UNSTORED: seq<Event> := [Increase, Store(false), Release]

  lemma ShotRun(w: World)
    requires w.alive && w.holder.None?
    ensures Run(w, SHOT) == w.(nonce := Some(Upcoming(w)), holder := Some(Acknowledged),
                               sent := w.sent + [Int64(Upcoming(w))])
  {
    RunConcat(w, ENTER, [Send]);
    EnterRun(w);
    RunTwo(Run(w, ENTER), Send, Send);
  }

  lemma UnstoredRun(w: World)
    requires w.holder == Some(Acknowledged) && w.nonce.Some?
    ensures Run(w, UNSTORED) == w.(nonce := Some(w.nonce.value + 1), holder := None)
  {
    assert UNSTORED == [Increase] + [Store(false), Release];
    RunConcat(w, [Increase], [Store(false), Release]);
    RunTwo(w, Increase, Increase);
    LeaveRun(Run(w, [Increase]), true, false);
  }

  lemma ShotAfterRelaunch(w: World)
    ensures var r := Run(w, RELAUNCH + SHOT);
            r.sent == w.sent + [Int64(Recovered(w))] && r.stored == w.stored && r.onchain == w.onchain
  {
    RunConcat(w, RELAUNCH, SHOT);
    RunTwo(w, Crash, Restart);
    ShotRun(Run(w, RELAUNCH));
  }

  /** Without a failed or a narrowing step in between: what a restarted process sends first is neither
      behind storage nor behind the contract, and is what one of them holds. */
  lemma FirstSendAfterRestart(w: World)
    requires w.stored < TWO_63 && w.onchain < TWO_63
    ensures var sent := Run(w, RELAUNCH + SHOT).sent;
            && |sent| == |w.sent| + 1
            && sent[|w.sent|] >= w.stored && sent[|w.sent|] >= w.onchain
            && (sent[|w.sent|] == w.stored || sent[|w.sent|] == w.onchain)
  {
    ShotAfterRelaunch(w);
  }

  /** The contract's nonce never falls, and what is mined counts for the next restart. */
  lemma MinedCounts(w: World, n: nat)
    requires w.stored < TWO_63 && w.onchain < TWO_63 && n < TWO_63
    ensures var r := Next(w, Mined(n));
            && r.onchain >= n && r.onchain >= w.onchain && (r.onchain == n || r.onchain == w.onchain)
            && |Run(r, RELAUNCH + SHOT).sent| == |w.sent| + 1
            && Run(r, RELAUNCH + SHOT).sent[|w.sent|] >= n
  {
    FirstSendAfterRestart(Next(w, Mined(n)));
  }

  /** One failed store, the next send, and a crash: a process starts over from what storage and
      contract hold, whatever was sent since. */
  lemma OneFailedStoreGoesBack(w: World)
    requires w.alive && w.holder.None?
    ensures Run(w, SHOT + UNSTORED + (SHOT + (RELAUNCH + SHOT))).sent
            == w.sent + [Int64(Upcoming(w)), Int64(Upcoming(w) + 1), Int64(Recovered(w))]
  {
    RunThree(w, SHOT, UNSTORED, SHOT + (RELAUNCH + SHOT));
    ShotRun(w);
    UnstoredRun(Run(w, SHOT));
    var w2 := Run(Run(w, SHOT), UNSTORED);
    RunConcat(w2, SHOT, RELAUNCH + SHOT);
    ShotRun(w2);
    ShotAfterRelaunch(Run(w2, SHOT));
  }

  // ---------- how many failed stores it takes ----------

  function FailedStores(events: seq<Event>): nat {
    multiset(events)[Store(false)]
  }

  /** A launch, a transaction with a failed store, a send, and a send after a crash. */
  const GOING_BACK: seq<Event> := RELAUNCH + (SHOT + UNSTORED + (SHOT + (RELAUNCH + SHOT)))

  lemma SmallerNonceAfterOneFailedStore(stored: nat, onchain: nat)
    ensures var n := Max(stored, onchain);
            Run(Initial(stored, onchain), GOING_BACK).sent == [Int64(n), Int64(n + 1), Int64(n)]
  {
    var w := Initial(stored, onchain);
    RunConcat(w, RELAUNCH, SHOT + UNSTORED + (SHOT + (RELAUNCH + SHOT)));
    RunTwo(w, Crash, Restart);
    OneFailedStoreGoesBack(Run(w, RELAUNCH));
  }

  lemma GoingBackFailsOnce()
    ensures FailedStores(GOING_BACK) == 1
  {
    FailedStoresConcat(RELAUNCH, SHOT + UNSTORED + (SHOT + (RELAUNCH + SHOT)));
    FailedStoresConcat(SHOT + UNSTORED, SHOT + (RELAUNCH + SHOT));
    FailedStoresConcat(SHOT, UNSTORED);
    FailedStoresConcat(SHOT, RELAUNCH + SHOT);
    FailedStoresConcat(RELAUNCH, SHOT);
    assert FailedStores(SHOT) == 0 && FailedStores(RELAUNCH) == 0 && FailedStores(UNSTORED) == 1;
  }

  lemma FailedStoresConcat(a: seq<Event>, b: seq<Event>)
    ensures FailedStores(a + b) == FailedStores(a) + FailedStores(b)
  {
    assert multiset(a + b) == multiset(a) + multiset(b);
  }

  ghost predicate Below(w: World, bound: nat) {
    Recovered(w) <= bound && (w.nonce.Some? ==> w.nonce.value <= bound)
  }

  lemma {:induction false} InRangeConcat(w: World, a: seq<Event>, b: seq<Event>)
    requires InRange(w, a) && InRange(Run(w, a), b)
    ensures InRange(w, a + b)
  {
    RunConcat(w, a, b);
    if b == [] {
      assert a + b == a;
    } else {
      InRangeConcat(w, a, b[..|b| - 1]);
      assert (a + b)[..|a + b| - 1] == a + b[..|b| - 1];
    }
  }

  /** Only increments, and what happens on chain, make nonces grow. */
  lemma {:induction false} StaysBelow(w: World, events: seq<Event>, bound: nat)
    requires Below(w, bound) && bound < TWO_63
    requires forall e :: e in events ==> !e.Increase? && !e.Mined?
    ensures InRange(w, events) && Below(Run(w, events), bound)
  {
    if events != [] {
      StaysBelow(w, events[..|events| - 1], bound);
      assert events[|events| - 1] in events;
    }
  }

  lemma GoingBackInRange(stored: nat, onchain: nat)
    requires Max(stored, onchain) + 1 < TWO_63
    ensures InRange(Initial(stored, onchain), GOING_BACK)
  {
    var w, n := Initial(stored, onchain), Max(stored, onchain);
    var before, after := RELAUNCH + SHOT, [Store(false), Release] + (SHOT + (RELAUNCH + SHOT));
    StaysBelow(w, before, n);
    var w1 := Run(w, before);
    assert Below(Next(w1, Increase), n + 1);
    RunTwo(w1, Increase, Increase);
    assert InRange(w1, [Increase]) by { assert InRange(w1, [Increase][..0]); }
    StaysBelow(Next(w1, Increase), after, n + 1);
    InRangeConcat(w1, [Increase], after);
    InRangeConcat(w, before, [Increase] + after);
    assert GOING_BACK == before + ([Increase] + after);
  }

  /** From 2^63 - 1 on there is only one nonce left to send. */
  ghost predicate AtTheEnd(w: World) {
    && Recovered(w) + 1 >= TWO_63 && (w.nonce.Some? ==> w.nonce.value + 1 >= TWO_63)
    && forall i :: 0 <= i < |w.sent| ==> w.sent[i] == TWO_63 - 1
  }

  lemma StaysAtTheEnd(w: World, e: Event)
    requires AtTheEnd(w) && (w.nonce.Some? ==> w.nonce.value < TWO_63)
    ensures AtTheEnd(Next(w, e))
  {
  }

  lemma {:induction false} EndsAtTheEnd(w: World, events: seq<Event>)
    requires InRange(w, events) && AtTheEnd(w)
    ensures AtTheEnd(Run(w, events))
  {
    if events != [] {
      EndsAtTheEnd(w, events[..|events| - 1]);
      StaysAtTheEnd(Run(w, events[..|events| - 1]), events[|events| - 1]);
    }
  }

  /** With at most k failed stores the nonces sent never decrease, in any run, exactly when k is zero:
      one failed store is enough to send a smaller nonce than before, unless there is none. */
  lemma NeverDecreaseExactly(stored: nat, onchain: nat, k: nat)
    ensures (forall events | InRange(Initial(stored, onchain), events) && FailedStores(events) <= k ::
               NonDecreasing(Run(Initial(stored, onchain), events).sent))
            <==> k == 0 || Max(stored, onchain) + 1 >= TWO_63
  {
    if k == 0 || Max(stored, onchain) + 1 >= TWO_63 {
      forall events | InRange(Initial(stored, onchain), events) && FailedStores(events) <= k
        ensures NonDecreasing(Run(Initial(stored, onchain), events).sent)
      {
        if k == 0 {
          assert Store(false) !in multiset(events);
          NoncesNeverDecrease(stored, onchain, events);
        } else {
          EndsAtTheEnd(Initial(stored, onchain), events);
        }
      }
    } else {
      SmallerNonceAfterOneFailedStore(stored, onchain);
      GoingBackFailsOnce();
      GoingBackInRange(stored, onchain);
      var sent := Run(Initial(stored, onchain), GOING_BACK).sent;
      assert sent[1] > sent[2];
    }
  }

  /** What a fresh process sends first reuses or undercuts a sent nonce exactly when storage and
      contract are not past that; and then its own process died, or is dying, before storing it. */
  lemma FreshNonceReusesExactly(stored: nat, onchain: nat, events: seq<Event>, i: nat)
    requires InRange(Initial(stored, onchain), events)
    requires i < |Run(Initial(stored, onchain), events).sent|
    requires Recovered(Run(Initial(stored, onchain), events)) < TWO_63
    ensures var w := Run(Initial(stored, onchain), events);
            var r := Run(w, RELAUNCH + SHOT);
            && |r.sent| == |w.sent| + 1
            && (r.sent[|w.sent|] <= w.sent[i] <==> Recovered(w) <= w.sent[i])
            && (r.sent[|w.sent|] <= w.sent[i] ==> i >= w.saved || i in w.lost)
  {
    var w := Run(Initial(stored, onchain), events);
    RunKeepsInv(Initial(stored, onchain), events);
    ShotAfterRelaunch(w);
    assert i < w.saved && i !in w.lost ==> Kept(w, i);
  }
}
