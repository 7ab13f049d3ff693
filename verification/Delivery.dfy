/** From a deposit to the chain it is written to: parsing, routing and processing taken together. */
module Delivery {
  import opened Bytes
  import Decimals
  import opened EventHandlers
  import opened MessageProcessors
  import opened Messages
  import opened Relayer
  import opened RelayerRuns

  // ---------- to the destination of the deposit ----------

  /** Whatever a processor makes of a message, it is for the same chain. */
  ghost predicate KeepsDestination(p: Processor) {
    forall m: Message, next: Message :: p(m, Ok(next)) ==> next.destination == m.destination
  }

  /** What an adjusting processor may answer: the adjustment between some precisions, or its failure. */
  ghost function Adjusting(): Processor {
    (m: Message, answer: Outcome<Message>) => answer.Panic? || exists p: Option<Precisions> :: answer == Adjusted(m, p)
  }

  lemma AdjustedDestination(m: Message, p: Option<Precisions>)
    ensures Adjusted(m, p).Ok? ==> Adjusted(m, p).value.destination == m.destination
  {
    if Adjusted(m, p).Ok? && p.value.source != p.value.destination {
      var amount := Decimals.Scale(ToNat(m.payload[0].bytes), p.value.source, p.value.destination);
      assert Adjusted(m, p).value == m.(payload := m.payload[0 := Data(FromNat(amount))]);
    }
  }

  lemma AdjustingKeepsDestination()
    ensures KeepsDestination(Adjusting())
  {
    forall m: Message, next: Message | Adjusting()(m, Ok(next))
      ensures next.destination == m.destination
    {
      var answer: Outcome<Message> := Ok(next);
      assert Adjusting()(m, answer);
      var p: Option<Precisions> :| answer == Adjusted(m, p);
      AdjustedDestination(m, p);
    }
  }

  lemma {:induction false} EndKeepsDestination(processors: seq<Processor>, m: Message, trail: seq<Message>)
    requires Accepted(processors, m, trail)
    requires forall k :: 0 <= k < |processors| ==> KeepsDestination(processors[k])
    ensures End(m, trail).destination == m.destination
  {
    if trail != [] {
      var n := |trail| - 1;
      assert forall k :: 0 <= k < n ==> trail[..n][..k] == trail[..k];
      EndKeepsDestination(processors, m, trail[..n]);
      assert KeepsDestination(processors[n]);
    }
  }

  /** A write of what became of a deposit goes to the last chain registered for the deposit's destination,
      and, when the processors keep destinations, carries that destination. */
  lemma WrittenToDestination(s: Setup, events: seq<Event>, i: nat, found: Option<TransferType>, d: Deposit)
    requires i < |Run(s, events).writes|
    requires var w := Run(s, events);
             w.writes[i].task < |w.tasks| && HandleEvent(found, d) == Ok(w.tasks[w.writes[i].task].original)
    ensures IsLast(s.domains, d.destination, Run(s, events).writes[i].destination)
    ensures (forall k :: 0 <= k < |s.processors| ==> KeepsDestination(s.processors[k])) ==>
              Run(s, events).writes[i].message.destination == d.destination
  {
    HandleEventExactly(found, d);
    WritesAreAccepted(s, events, i);
    var task := Run(s, events).tasks[Run(s, events).writes[i].task];
    if forall k :: 0 <= k < |s.processors| ==> KeepsDestination(s.processors[k]) {
      EndKeepsDestination(s.processors, task.original, task.trail);
    }
  }

  // ---------- accepted messages can be written ----------

  lemma RunSnoc(s: Setup, events: seq<Event>, e: Event)
    ensures Run(s, events + [e]) == Next(s, Run(s, events), e)
  {
    assert (events + [e])[..|events|] == events;
  }

  /** The world with a task that far. */
  function With(w: World, t: nat, task: Task): World
    requires t < |w.tasks|
  {
    w.(tasks := w.tasks[t := task])
  }

  lemma AcceptOne(s: Setup, w: World, t: nat, task: Task, next: Message)
    requires w.alive && t < |w.tasks| && task.stage.Processing? && |task.trail| < |s.processors|
    requires s.processors[|task.trail|](End(task.original, task.trail), Ok(next))
    ensures Next(s, With(w, t, task), Advance(t, Ok(next))) == With(w, t, task.(trail := task.trail + [next]))
  {
    var w1 := With(w, t, task);
    assert w1.tasks[t := task.(trail := task.trail + [next])] == w.tasks[t := task.(trail := task.trail + [next])];
  }

  lemma ShorterTrail(processors: seq<Processor>, m: Message, trail: seq<Message>)
    requires Accepted(processors, m, trail) && trail != []
    ensures var n := |trail| - 1;
            && Accepted(processors, m, trail[..n]) && n < |processors|
            && processors[n](End(m, trail[..n]), Ok(trail[n])) && trail[..n] + [trail[n]] == trail
  {
    var n := |trail| - 1;
    assert forall k :: 0 <= k < n ==> trail[..n][..k] == trail[..k];
  }

  /** One processor after the other accepts. */
  lemma {:induction false} AcceptAll(s: Setup, events: seq<Event>, w: World, t: nat, task: Task, trail: seq<Message>)
    returns (all: seq<Event>)
    requires w == Run(s, events) && w.alive && t < |w.tasks| && w.tasks[t] == task
    requires task.stage.Processing? && task.trail == []
    requires Accepted(s.processors, task.original, trail)
    ensures Run(s, all) == With(w, t, task.(trail := trail))
    decreases |trail|
  {
    if trail == [] {
      all := events;
      assert w.tasks[t := task] == w.tasks;
    } else {
      var n := |trail| - 1;
      ShorterTrail(s.processors, task.original, trail);
      var before := AcceptAll(s, events, w, t, task, trail[..n]);
      all := before + [Advance(t, Ok(trail[n]))];
      RunSnoc(s, before, Advance(t, Ok(trail[n])));
      AcceptOne(s, w, t, task.(trail := trail[..n]), trail[n]);
    }
  }

  /** From every reachable state of a running relayer, a message that a chain sends next and that all
      processors accept can be written: once, in its final form, to the last chain registered for it. */
  lemma AcceptedIsWritten(s: Setup, events: seq<Event>, c: nat, m: Message, trail: seq<Message>)
    returns (all: seq<Event>)
    requires var w := Run(s, events);
             w.alive && w.dispatching && c < |w.chains| && w.chains[c].held.None?
    requires m.destination in s.domains
    requires Accepted(s.processors, m, trail) && |trail| == |s.processors|
    ensures var w, r := Run(s, events), Run(s, all);
            && |r.writes| == |w.writes| + 1 && r.writes[..|w.writes|] == w.writes
            && r.writes[|w.writes|].message == End(m, trail)
            && IsLast(s.domains, m.destination, r.writes[|w.writes|].destination)
  {
    var w := Run(s, events);
    RunKeepsInv(s, events);
    assert s.domains[..w.registered] == s.domains;
    ResolvesToLast(s.domains, m.destination);
    var t, destination := |w.tasks|, w.registry[m.destination];
    var e1 := events + [Emit(c, m)];
    RunSnoc(s, events, Emit(c, m));
    var e2 := e1 + [Receive(c)];
    RunSnoc(s, e1, Receive(c));
    var w2 := Run(s, e2);
    assert w2.tasks[t] == Task(c, m, [], Looking) && w2.writes == w.writes && w2.registry == w.registry;
    all := RouteTask(s, e2, t, c, m, destination, trail);
  }

  lemma RouteTask(s: Setup, events: seq<Event>, t: nat, c: nat, m: Message, destination: nat, trail: seq<Message>)
    returns (all: seq<Event>)
    requires var w := Run(s, events);
             && w.alive && t < |w.tasks| && w.tasks[t] == Task(c, m, [], Looking)
             && m.destination in w.registry && w.registry[m.destination] == destination
    requires Accepted(s.processors, m, trail) && |trail| == |s.processors|
    ensures Run(s, all).writes == Run(s, events).writes + [WriteCall(t, destination, End(m, trail))]
  {
    var looked := events + [Advance(t, Error)];
    RunSnoc(s, events, Advance(t, Error));
    var w := Run(s, looked);
    var before := AcceptAll(s, looked, w, t, Task(c, m, [], Processing(destination)), trail);
    all := before + [Advance(t, Error)];
    RunSnoc(s, before, Advance(t, Error));
  }
}
