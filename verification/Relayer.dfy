/** The relayer: registering chains, and routing a message through the processors to its destination. */
module Relayer {
  import opened Bytes
  import opened Messages

  /** The answers a processor may give to a message: to accept it, possibly changed, to return an error,
      or to panic. One that asks a chain may answer the same message differently in another call. */
  type Processor = (Message, Outcome<Message>) -> bool

  /** A processor as it answers in one call. */
  type Answering = Message -> Outcome<Message>

  /** The domain registered last wins. Domains are given in the order of registration. */
  function RegistryOf(domains: seq<uint8>): map<uint8, nat> {
    if domains == [] then map[]
    else RegistryOf(domains[..|domains| - 1])[domains[|domains| - 1] := |domains| - 1]
  }

  ghost predicate IsLast(domains: seq<uint8>, domain: uint8, i: nat) {
    i < |domains| && domains[i] == domain && forall j :: i < j < |domains| ==> domains[j] != domain
  }

  /** A domain resolves exactly when it is configured, to the last chain registered for it. */
  lemma {:induction false} ResolvesToLast(domains: seq<uint8>, domain: uint8)
    ensures domain in RegistryOf(domains) <==> domain in domains
    ensures domain in RegistryOf(domains) ==> IsLast(domains, domain, RegistryOf(domains)[domain])
  {
    if domains != [] {
      var n := |domains| - 1;
      ResolvesToLast(domains[..n], domain);
      assert domains == domains[..n] + [domains[n]];
    }
  }

  /** What the first k processors make of a message: the first one that does not accept it has the last word. */
  function Processed(answers: seq<Answering>, k: nat, m: Message): Outcome<Message>
    requires k <= |answers|
  {
    if k == 0 then Ok(m)
    else
      var before := Processed(answers, k - 1, m);
      if before.Ok? then answers[k - 1](before.value) else before
  }

  /** Two processors take their turns in the order given, and the second is not asked about what the
      first does not accept. */
  lemma TwoInTurn(first: Answering, second: Answering, m: Message)
    ensures Processed([first, second], 2, m) == if first(m).Ok? then second(first(m).value) else first(m)
  {
    assert Processed([first, second], 1, m) == first(m);
  }

  /** A rejection is final. */
  lemma {:induction false} RejectedStaysRejected(answers: seq<Answering>, j: nat, k: nat, m: Message)
    requires j <= k <= |answers| && !Processed(answers, j, m).Ok?
    ensures Processed(answers, k, m) == Processed(answers, j, m)
  {
    if j < k {
      RejectedStaysRejected(answers, j, k - 1, m);
    }
  }

  /** A message after the acceptances in `trail`. */
  function End(m: Message, trail: seq<Message>): Message {
    if trail == [] then m else trail[|trail| - 1]
  }

  /** The first processors, in order, may have accepted the message, each one what its predecessor left. */
  ghost predicate Accepted(processors: seq<Processor>, m: Message, trail: seq<Message>) {
    && |trail| <= |processors|
    && forall k :: 0 <= k < |trail| ==> processors[k](End(m, trail[..k]), Ok(trail[k]))
  }

  lemma AcceptedSnoc(processors: seq<Processor>, m: Message, trail: seq<Message>, next: Message)
    requires Accepted(processors, m, trail) && |trail| < |processors|
    requires processors[|trail|](End(m, trail), Ok(next))
    ensures Accepted(processors, m, trail + [next])
  {
    var trail' := trail + [next];
    forall k | 0 <= k < |trail'|
      ensures processors[k](End(m, trail'[..k]), Ok(trail'[k]))
    {
      assert trail'[..k] == trail[..k];
      assert k == |trail| ==> trail[..k] == trail;
    }
  }

  /** These are answers the processors may give. */
  ghost predicate May(processors: seq<Processor>, answers: seq<Answering>) {
    |answers| == |processors| && forall k, x: Message :: 0 <= k < |processors| ==> processors[k](x, answers[k](x))
  }

  /** What a call makes of a message is what processors have accepted one after the other. */
  lemma {:induction false} ProcessedIsAccepted(processors: seq<Processor>, answers: seq<Answering>, k: nat, m: Message)
    returns (trail: seq<Message>)
    requires May(processors, answers) && k <= |processors| && Processed(answers, k, m).Ok?
    ensures |trail| == k && Accepted(processors, m, trail) && End(m, trail) == Processed(answers, k, m).value
  {
    trail := [];
    if k > 0 {
      trail := ProcessedIsAccepted(processors, answers, k - 1, m);
      AcceptedSnoc(processors, m, trail, Processed(answers, k, m).value);
      trail := trail + [Processed(answers, k, m).value];
    }
  }

  /** Processors with only one answer to each message leave no choice. */
  lemma {:induction false} AcceptedIsProcessed(processors: seq<Processor>, answers: seq<Answering>, m: Message,
                                               trail: seq<Message>)
    requires |answers| == |processors|
    requires forall k, x: Message, a: Outcome<Message> ::
               0 <= k < |processors| && processors[k](x, a) ==> a == answers[k](x)
    requires Accepted(processors, m, trail)
    ensures Processed(answers, |trail|, m) == Ok(End(m, trail))
  {
    if trail != [] {
      var n := |trail| - 1;
      assert forall k :: 0 <= k < n ==> trail[..n][..k] == trail[..k];
      AcceptedIsProcessed(processors, answers, m, trail[..n]);
    }
  }

  class RelayedChain {
    const domainID: uint8
    var written: seq<Message>

    constructor (domainID: uint8)
      ensures this.domainID == domainID && written == []
    {
      this.domainID := domainID;
      written := [];
    }

    /** Hands a message to the destination's writer; `ok` is whether that succeeds. */
    method Write(m: Message, ok: bool) returns (r: Outcome<()>)
      modifies this
      ensures written == old(written) + [m] && r == if ok then Ok(()) else Error
    {
      written := written + [m];
      r := if ok then Ok(()) else Error;
    }
  }

  function Domains(chains: seq<RelayedChain>): (domains: seq<uint8>)
    ensures |domains| == |chains| && forall i :: 0 <= i < |chains| ==> domains[i] == chains[i].domainID
  {
    seq(|chains|, i requires 0 <= i < |chains| => chains[i].domainID)
  }

  class Relayer {
    const relayedChains: seq<RelayedChain>
    const messageProcessors: seq<Processor>
    var registry: map<uint8, RelayedChain>

    constructor (chains: seq<RelayedChain>, processors: seq<Processor>)
      ensures relayedChains == chains && messageProcessors == processors && registry == map[]
    {
      relayedChains, messageProcessors, registry := chains, processors, map[];
    }

    /** The registry holds the chains that RegistryOf names, for the first n chains. */
    ghost predicate Registered(n: nat)
      reads this
      requires n <= |relayedChains|
    {
      var named := RegistryOf(Domains(relayedChains[..n]));
      && registry.Keys == named.Keys
      && forall d: uint8 :: d in named ==> named[d] < n && registry[d] == relayedChains[named[d]]
    }

    method AddRelayedChain(c: RelayedChain)
      modifies this
      ensures registry == old(registry)[c.domainID := c]
    {
      registry := registry[c.domainID := c];
    }

    /** The registration loop of Start; the message loop behind it is in RelayerRuns. */
    method RegisterChains()
      requires registry == map[]
      modifies this
      ensures Registered(|relayedChains|)
    {
      var i := 0;
      while i < |relayedChains|
        invariant 0 <= i <= |relayedChains|
        invariant Registered(i)
      {
        AddRelayedChain(relayedChains[i]);
        assert Domains(relayedChains[..i + 1])[..i] == Domains(relayedChains[..i]);
        i := i + 1;
      }
    }

    /** Writes the message only when its destination is registered and every processor, as it answers in
        this call, accepts it, each one seeing what its predecessor left. The destination is looked up
        before processing. */
    method Route(m: Message, answers: seq<Answering>, writes: bool) returns (r: Outcome<()>)
      requires May(messageProcessors, answers)
      modifies registry.Values
      ensures var result := Processed(answers, |answers|, m);
              var routed := m.destination in registry && result.Ok?;
              && (forall c :: c in registry.Values ==>
                    c.written == if routed && c == registry[m.destination] then old(c.written) + [result.value]
                                 else old(c.written))
              && (r.Panic? <==> m.destination in registry && result.Panic?)
              && (r.Ok? <==> routed && writes)
    {
      if m.destination !in registry {
        return Error;
      }
      var destChain := registry[m.destination];
      var message := m;
      var k := 0;
      while k < |messageProcessors|
        invariant 0 <= k <= |messageProcessors|
        invariant Processed(answers, k, m) == Ok(message)
      {
        var next := answers[k](message);
        if !next.Ok? {
          RejectedStaysRejected(answers, k + 1, |answers|, m);
          return if next.Panic? then Panic else Error;
        }
        message := next.value;
        k := k + 1;
      }
      r := destChain.Write(message, writes);
    }
  }
}
