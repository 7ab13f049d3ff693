/**
 Whole runs of the relayer: the goroutine of Start, one PollEvents goroutine per chain with its
 listener, and one routing goroutine per message, interleaved in any order. Both kinds of channel
 are unbuffered, so a send and its receive are one step. An event that does not apply in a state
 changes nothing, so every sequence of events is a run.
 */
module RelayerRuns {
  import opened Bytes
  import opened Messages
  import opened Relayer

  /** What a chain's listener has sent, what its PollEvents holds, and what Start has received from it. */
  datatype ChainState = ChainState(emitted: seq<Message>, held: Option<Message>, received: seq<Message>)

  datatype Stage = Looking | Processing(destination: nat) | Written(destination: nat) | Dropped

  /** A routing goroutine: the chain and message it was started for, the message as each processor so
      far has left it, and how far it is. */
  datatype Task = Task(chain: nat, original: Message, trail: seq<Message>, stage: Stage)

  datatype WriteCall = WriteCall(task: nat, destination: nat, message: Message)

  /** A panic in any goroutine ends the process. */
  datatype World = World(alive: bool, registered: nat, dispatching: bool, registry: map<uint8, nat>,
                         chains: seq<ChainState>, tasks: seq<Task>, writes: seq<WriteCall>)

  /** `answer` is what the task's next processor answers, if it asks one. */
  datatype Event =
    | Register
    | EndRegistration
    | Emit(chain: nat, message: Message)
    | Receive(chain: nat)
    | Advance(task: nat, answer: Outcome<Message>)

  datatype Setup = Setup(domains: seq<uint8>, processors: seq<Processor>)

  function AdvanceTask(s: Setup, w: World, t: nat, answer: Outcome<Message>): World
    requires t < |w.tasks|
  {
    var task := w.tasks[t];
    match task.stage
    case Looking =>
      var destination := task.original.destination;
      var stage := if destination in w.registry then Processing(w.registry[destination]) else Dropped;
      w.(tasks := w.tasks[t := task.(stage := stage)])
    case Processing(destination) =>
      var current := End(task.original, task.trail);
      if |task.trail| < |s.processors| then
        if !s.processors[|task.trail|](current, answer) then w
        else
          match answer
          case Ok(next) => w.(tasks := w.tasks[t := task.(trail := task.trail + [next])])
          case Error => w.(tasks := w.tasks[t := task.(stage := Dropped)])
          case Panic => w.(alive := false)
      else
        w.(tasks := w.tasks[t := task.(stage := Written(destination))],
           writes := w.writes + [WriteCall(t, destination, current)])
    case Written(_) => w
    case Dropped => w
  }

  function Next(s: Setup, w: World, e: Event): World {
    if !w.alive then w
    else
      match e
      case Register =>
        // a chain is registered, and only then its goroutine is started
        if !w.dispatching && w.registered < |s.domains| then
          w.(registry := w.registry[s.domains[w.registered] := w.registered], registered := w.registered + 1,
             chains := w.chains + [ChainState([], None, [])])
        else w
      case EndRegistration =>
        if w.registered == |s.domains| then w.(dispatching := true) else w
      case Emit(c, m) =>
        if c < |w.chains| && w.chains[c].held.None? then
          w.(chains := w.chains[c := w.chains[c].(emitted := w.chains[c].emitted + [m], held := Some(m))])
        else w
      case Receive(c) =>
        if w.dispatching && c < |w.chains| && w.chains[c].held.Some? then
          var m := w.chains[c].held.value;
          w.(chains := w.chains[c := w.chains[c].(held := None, received := w.chains[c].received + [m])],
             tasks := w.tasks + [Task(c, m, [], Looking)])
        else w
      case Advance(t, answer) =>
        if t < |w.tasks| then AdvanceTask(s, w, t, answer) else w
  }

  const START := World(true, 0, false, map[], [], [], [])

  function Run(s: Setup, events: seq<Event>): World {
    if events == [] then START
    else Next(s, Run(s, events[..|events| - 1]), events[|events| - 1])
  }

  // ---------- conservation through the channels ----------

  function HeldSeq(held: Option<Message>): seq<Message> {
    if held.Some? then [held.value] else []
  }

  /** The messages routing was started for, of one chain, in order. */
  function TasksOf(tasks: seq<Task>, c: nat): seq<Message> {
    if tasks == [] then []
    else
      var last := tasks[|tasks| - 1];
      TasksOf(tasks[..|tasks| - 1], c) + if last.chain == c then [last.original] else []
  }

  /** What was sent has been received, in order, except for the message held. */
  ghost predicate Passes(c: ChainState) {
    c.emitted == c.received + HeldSeq(c.held)
  }

  ghost predicate Conserved(w: World) {
    && (forall c: nat :: c < |w.chains| ==> Passes(w.chains[c]))
    && (forall c: nat :: TasksOf(w.tasks, c) == if c < |w.chains| then w.chains[c].received else [])
  }

  /** Moving a task on does not change what it was started for. */
  lemma {:induction false} TasksOfUpdate(tasks: seq<Task>, t: nat, task: Task, c: nat)
    requires t < |tasks| && task.chain == tasks[t].chain && task.original == tasks[t].original
    ensures TasksOf(tasks[t := task], c) == TasksOf(tasks, c)
  {
    var n := |tasks| - 1;
    if t == n {
      assert tasks[t := task][..n] == tasks[..n];
    } else {
      assert tasks[t := task][..n] == tasks[..n][t := task];
      TasksOfUpdate(tasks[..n], t, task, c);
    }
  }

  lemma EmitConserves(s: Setup, w: World, c: nat, m: Message)
    requires Conserved(w)
    ensures Conserved(Next(s, w, Emit(c, m)))
  {
    if w.alive && c < |w.chains| && w.chains[c].held.None? {
      EmitPasses(w.chains[c], m);
    }
  }

  lemma EmitPasses(c: ChainState, m: Message)
    requires Passes(c) && c.held.None?
    ensures Passes(c.(emitted := c.emitted + [m], held := Some(m)))
  {
  }

  lemma ReceiveConserves(s: Setup, w: World, c: nat)
    requires Conserved(w)
    ensures Conserved(Next(s, w, Receive(c)))
  {
    var w' := Next(s, w, Receive(c));
    if w' != w {
      assert w'.tasks[..|w.tasks|] == w.tasks;
    }
  }

  lemma AdvanceConserves(s: Setup, w: World, t: nat, answer: Outcome<Message>)
    requires Conserved(w)
    ensures Conserved(Next(s, w, Advance(t, answer)))
  {
    if t < |w.tasks| {
      var w' := AdvanceTask(s, w, t, answer);
      forall c: nat
        ensures TasksOf(w'.tasks, c) == TasksOf(w.tasks, c)
      {
        if w'.tasks != w.tasks {
          TasksOfUpdate(w.tasks, t, w'.tasks[t], c);
        }
      }
    }
  }

  lemma NextConserves(s: Setup, w: World, e: Event)
    requires Conserved(w)
    ensures Conserved(Next(s, w, e))
  {
    match e
    case Register =>
    case EndRegistration =>
    case Emit(c, m) => EmitConserves(s, w, c, m);
    case Receive(c) => ReceiveConserves(s, w, c);
    case Advance(t, answer) => AdvanceConserves(s, w, t, answer);
  }

  /** In every reachable state, what a chain's listener has sent is what the relayer has received from
      it followed by at most one message in PollEvents' hands, and each received message, in order, has
      exactly one routing goroutine. */
  lemma {:induction false} MessagesAreConserved(s: Setup, events: seq<Event>)
    ensures Conserved(Run(s, events))
  {
    if events != [] {
      var n := |events| - 1;
      MessagesAreConserved(s, events[..n]);
      NextConserves(s, Run(s, events[..n]), events[n]);
    }
  }

  // ---------- registration before dispatch, and what is written ----------

  ghost predicate TaskOk(s: Setup, task: Task) {
    var registry := RegistryOf(s.domains);
    var destination := task.original.destination;
    && Accepted(s.processors, task.original, task.trail)
    && match task.stage
       case Looking => task.trail == []
       case Processing(d) => destination in registry && d == registry[destination]
       case Written(d) => destination in registry && d == registry[destination] && |task.trail| == |s.processors|
       case Dropped => destination in registry ==> MayAnswer(s, task, Error)
  }

  /** The next processor may answer this. */
  ghost predicate MayAnswer(s: Setup, task: Task, answer: Outcome<Message>) {
    |task.trail| < |s.processors| && s.processors[|task.trail|](End(task.original, task.trail), answer)
  }

  ghost predicate Inv(s: Setup, w: World) {
    && w.registered == |w.chains| <= |s.domains|
    && w.registry == RegistryOf(s.domains[..w.registered])
    && (w.dispatching ==> w.registered == |s.domains|)
    && (!w.dispatching ==> w.tasks == [])
    && (forall t :: 0 <= t < |w.tasks| ==> TaskOk(s, w.tasks[t]))
    && (!w.alive ==> exists t :: 0 <= t < |w.tasks| && w.tasks[t].stage.Processing? && MayAnswer(s, w.tasks[t], Panic))
    && WritesOk(w)
  }

  /** Writes and finished tasks are in one-to-one correspondence. */
  ghost predicate WritesOk(w: World) {
    && (forall i :: 0 <= i < |w.writes| ==> IsWriteOf(w.tasks, w.writes[i]))
    && (forall i, j :: 0 <= i < j < |w.writes| ==> w.writes[i].task != w.writes[j].task)
    && (forall t: nat :: t < |w.tasks| && w.tasks[t].stage.Written? ==>
          exists i :: 0 <= i < |w.writes| && w.writes[i].task == t)
  }

  ghost predicate IsWriteOf(tasks: seq<Task>, write: WriteCall) {
    && write.task < |tasks|
    && tasks[write.task].stage == Written(write.destination)
    && End(tasks[write.task].original, tasks[write.task].trail) == write.message
  }

  lemma AdvanceKeepsTask(s: Setup, w: World, t: nat, answer: Outcome<Message>)
    requires Inv(s, w) && t < |w.tasks|
    ensures TaskOk(s, AdvanceTask(s, w, t, answer).tasks[t])
  {
    assert s.domains[..w.registered] == s.domains;
    var task := w.tasks[t];
    if task.stage.Processing? && MayAnswer(s, task, answer) && answer.Ok? {
      AcceptedSnoc(s.processors, task.original, task.trail, answer.value);
    }
  }

  lemma AdvanceKeepsWrites(s: Setup, w: World, t: nat, answer: Outcome<Message>)
    requires WritesOk(w) && t < |w.tasks|
    ensures WritesOk(AdvanceTask(s, w, t, answer))
  {
    var task := w.tasks[t];
    if task.stage.Processing? && |task.trail| >= |s.processors| {
      OneMoreWrite(w, t, task.stage.destination);
    } else if !task.stage.Written? {
      var w' := AdvanceTask(s, w, t, answer);
      SameWrites(w, t, w'.tasks[t]);
      assert w'.tasks == w.tasks[t := w'.tasks[t]] && w'.writes == w.writes;
    }
  }

  lemma SameWrites(w: World, t: nat, task: Task)
    requires WritesOk(w) && t < |w.tasks| && !w.tasks[t].stage.Written? && !task.stage.Written?
    ensures WritesOk(w.(tasks := w.tasks[t := task]))
  {
    var tasks := w.tasks[t := task];
    forall i | 0 <= i < |w.writes|
      ensures IsWriteOf(tasks, w.writes[i])
    {
      assert IsWriteOf(w.tasks, w.writes[i]);
    }
    forall u: nat | u < |tasks| && tasks[u].stage.Written?
      ensures exists i :: 0 <= i < |w.writes| && w.writes[i].task == u
    {
      assert w.tasks[u].stage.Written?;
    }
  }

  lemma OneMoreWrite(w: World, t: nat, destination: nat)
    requires WritesOk(w) && t < |w.tasks| && !w.tasks[t].stage.Written?
    ensures WritesOk(w.(tasks := w.tasks[t := w.tasks[t].(stage := Written(destination))],
                        writes := w.writes + [WriteCall(t, destination, End(w.tasks[t].original, w.tasks[t].trail))]))
  {
    var tasks := w.tasks[t := w.tasks[t].(stage := Written(destination))];
    var writes := w.writes + [WriteCall(t, destination, End(w.tasks[t].original, w.tasks[t].trail))];
    forall i | 0 <= i < |writes|
      ensures IsWriteOf(tasks, writes[i])
      ensures i < |w.writes| ==> writes[i].task != t
    {
      assert i < |w.writes| ==> IsWriteOf(w.tasks, w.writes[i]);
    }
    forall u: nat | u < |tasks| && tasks[u].stage.Written?
      ensures exists i :: 0 <= i < |writes| && writes[i].task == u
    {
      if u == t {
        assert writes[|w.writes|].task == u;
      } else {
        var i :| 0 <= i < |w.writes| && w.writes[i].task == u;
        assert writes[i].task == u;
      }
    }
  }

  lemma AdvanceKeepsInv(s: Setup, w: World, t: nat, answer: Outcome<Message>)
    requires Inv(s, w) && w.alive && t < |w.tasks|
    ensures Inv(s, AdvanceTask(s, w, t, answer))
  {
    AdvanceKeepsTask(s, w, t, answer);
    AdvanceKeepsWrites(s, w, t, answer);
    var w' := AdvanceTask(s, w, t, answer);
    assert forall u :: 0 <= u < |w'.tasks| && u != t ==> w'.tasks[u] == w.tasks[u];
  }

  lemma NextKeepsInv(s: Setup, w: World, e: Event)
    requires Inv(s, w)
    ensures Inv(s, Next(s, w, e))
  {
    match e
    case Register =>
      if w.registered < |s.domains| {
        assert s.domains[..w.registered + 1][..w.registered] == s.domains[..w.registered];
      }
    case EndRegistration =>
    case Emit(_, _) =>
    case Receive(_) =>
    case Advance(t, answer) => if w.alive && t < |w.tasks| { AdvanceKeepsInv(s, w, t, answer); }
  }

  lemma {:induction false} RunKeepsInv(s: Setup, events: seq<Event>)
    ensures Inv(s, Run(s, events))
  {
    if events != [] {
      var n := |events| - 1;
      RunKeepsInv(s, events[..n]);
      NextKeepsInv(s, Run(s, events[..n]), events[n]);
    }
  }

  /** No message is received before every chain is registered; from then on the registry stays the
      same, so every message resolves to the last chain registered for its destination; a message is
      dropped only if there is none, or if the processor it had come to answers with an error; and the
      process ends only when a processor panics. */
  lemma RegistryCompleteBeforeDispatch(s: Setup, events: seq<Event>, e: Event)
    ensures var w := Run(s, events);
            && (w.tasks != [] ==> w.dispatching)
            && (w.dispatching ==> w.registry == RegistryOf(s.domains) && Next(s, w, e).registry == w.registry)
            && (forall t :: 0 <= t < |w.tasks| && w.tasks[t].stage.Processing? ==>
                  IsLast(s.domains, w.tasks[t].original.destination, w.tasks[t].stage.destination))
            && (forall t :: 0 <= t < |w.tasks| && w.tasks[t].stage.Dropped? ==>
                  w.tasks[t].original.destination !in s.domains || MayAnswer(s, w.tasks[t], Error))
            && (!w.alive ==> exists t :: 0 <= t < |w.tasks| && MayAnswer(s, w.tasks[t], Panic))
  {
    RunKeepsInv(s, events);
    var w := Run(s, events);
    assert w.dispatching ==> s.domains[..w.registered] == s.domains;
    var registry := RegistryOf(s.domains);
    forall t | 0 <= t < |w.tasks|
      ensures TaskOk(s, w.tasks[t])
      ensures var destination := w.tasks[t].original.destination;
              && (destination in registry <==> destination in s.domains)
              && (destination in registry ==> IsLast(s.domains, destination, registry[destination]))
    {
      ResolvesToLast(s.domains, w.tasks[t].original.destination);
    }
  }

  /** Every write belongs to one received message and no two writes to the same one; it goes to the
      last chain registered for the destination, and carries the message as it came out of all
      processors, each of which accepted, in order, what its predecessor left. */
  lemma WritesAreAccepted(s: Setup, events: seq<Event>, i: nat)
    requires i < |Run(s, events).writes|
    ensures var w := Run(s, events);
            var write := w.writes[i];
            && write.task < |w.tasks|
            && var task := w.tasks[write.task];
            && IsLast(s.domains, task.original.destination, write.destination)
            && Accepted(s.processors, task.original, task.trail) && |task.trail| == |s.processors|
            && write.message == End(task.original, task.trail)
            && forall j :: 0 <= j < |w.writes| && w.writes[j].task == write.task ==> j == i
  {
    RunKeepsInv(s, events);
    var w := Run(s, events);
    assert IsWriteOf(w.tasks, w.writes[i]);
    var task := w.tasks[w.writes[i].task];
    assert TaskOk(s, task);
    ResolvesToLast(s.domains, task.original.destination);
  }

  /** When every processor has one answer to each message, the write carries what they make of it. */
  lemma WritesAreProcessed(s: Setup, answers: seq<Answering>, events: seq<Event>, i: nat)
    requires i < |Run(s, events).writes| && |answers| == |s.processors|
    requires forall k, x: Message, a: Outcome<Message> ::
               0 <= k < |s.processors| && s.processors[k](x, a) ==> a == answers[k](x)
    ensures var w := Run(s, events);
            && w.writes[i].task < |w.tasks|
            && Processed(answers, |answers|, w.tasks[w.writes[i].task].original) == Ok(w.writes[i].message)
  {
    WritesAreAccepted(s, events, i);
    var task := Run(s, events).tasks[Run(s, events).writes[i].task];
    AcceptedIsProcessed(s.processors, answers, task.original, task.trail);
  }
}
