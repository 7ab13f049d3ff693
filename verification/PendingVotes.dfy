/**
 The counter of pending votes under all interleavings: one goroutine per pending vote
 transaction increments it and, when the transaction is mined, decrements it, while the voter
 deletes the whole entry. Each map access is one atomic step.
 */
module PendingVotes {
  import opened Bytes
  import opened Messages
  import Voter

  type ProposalID = Voter.ProposalID
  type Counters = Voter.Counters

  /** The counter as the goroutines hold it, the goroutines waiting for a receipt (each for one
      proposal), the ones that have finished, and how many were waiting when an entry was last deleted. */
  datatype World = World(pending: Counters, waiting: map<nat, ProposalID>, finished: set<nat>,
                         atDelete: map<ProposalID, nat>)

  datatype Event = Increment(goroutine: nat, id: ProposalID) | Decrement(goroutine: nat) | Delete(id: ProposalID)

  function Waiting(w: World, id: ProposalID): set<nat> {
    set g | g in w.waiting && w.waiting[g] == id
  }

  function InFlight(w: World, id: ProposalID): nat {
    |Waiting(w, id)|
  }

  function AtDelete(w: World, id: ProposalID): nat {
    if id in w.atDelete then w.atDelete[id] else 0
  }

  function Next(w: World, e: Event): World {
    match e
    case Increment(g, id) =>
      if g in w.waiting || g in w.finished then w
      else w.(pending := Voter.Bump(w.pending, id, 1), waiting := w.waiting[g := id])
    case Decrement(g) =>
      if g !in w.waiting then w
      else World(Voter.Bump(w.pending, w.waiting[g], -1), w.waiting - {g}, w.finished + {g}, w.atDelete)
    case Delete(id) =>
      w.(pending := w.pending - {id}, atDelete := w.atDelete[id := InFlight(w, id)])
  }

  function Run(events: seq<Event>): World {
    if events == [] then World(map[], map[], {}, map[])
    else Next(Run(events[..|events| - 1]), events[|events| - 1])
  }

  /** The counter is the number in flight now minus the number in flight at the last deletion, mod 256. */
  ghost predicate Counts(w: World, id: ProposalID) {
    Voter.PendingCount(w.pending, id) == (InFlight(w, id) - AtDelete(w, id)) % 256
  }

  lemma ModStep(n: int, delta: int)
    ensures (n % 256 + delta) % 256 == (n + delta) % 256
  {
    var q := n / 256;
    assert n + delta == 256 * q + (n % 256 + delta);
  }

  lemma IncrementCounts(w: World, g: nat, id: ProposalID, other: ProposalID)
    requires g !in w.waiting && g !in w.finished && Counts(w, other)
    ensures Counts(Next(w, Increment(g, id)), other)
  {
    var w' := Next(w, Increment(g, id));
    if other == id {
      assert Waiting(w', id) == Waiting(w, id) + {g};
      ModStep(InFlight(w, id) - AtDelete(w, id), 1);
    } else {
      assert Waiting(w', other) == Waiting(w, other);
    }
  }

  lemma DecrementWaiting(w: World, g: nat, id: ProposalID)
    requires g in w.waiting
    ensures InFlight(Next(w, Decrement(g)), id) == InFlight(w, id) - if w.waiting[g] == id then 1 else 0
  {
    var before, after := Waiting(w, id), Waiting(Next(w, Decrement(g)), id);
    assert after == before - {g};
    assert g in before <==> w.waiting[g] == id;
  }

  lemma DecrementCounts(w: World, g: nat, other: ProposalID)
    requires g in w.waiting && Counts(w, other)
    ensures Counts(Next(w, Decrement(g)), other)
  {
    DecrementWaiting(w, g, other);
    ModStep(InFlight(w, other) - AtDelete(w, other), -1);
  }

  lemma DeleteCounts(w: World, id: ProposalID, other: ProposalID)
    requires Counts(w, other)
    ensures Counts(Next(w, Delete(id)), other)
  {
    assert Waiting(Next(w, Delete(id)), other) == Waiting(w, other);
  }

  /** In every interleaving, for every proposal. */
  lemma {:induction false} CounterCounts(events: seq<Event>, id: ProposalID)
    ensures Counts(Run(events), id)
  {
    if events == [] {
      assert Waiting(Run(events), id) == {};
    } else {
      var n := |events| - 1;
      CounterCounts(events[..n], id);
      var w := Run(events[..n]);
      match events[n]
      case Increment(g, i) => if g !in w.waiting && g !in w.finished { IncrementCounts(w, g, i, id); }
      case Decrement(g) => if g in w.waiting { DecrementCounts(w, g, id); }
      case Delete(i) => DeleteCounts(w, i, id);
    }
  }

  lemma {:induction false} NeverDeleted(events: seq<Event>, id: ProposalID)
    requires Delete(id) !in events
    ensures AtDelete(Run(events), id) == 0
  {
    if events != [] {
      NeverDeleted(events[..|events| - 1], id);
    }
  }

  /** Without a deletion the counter is the number in flight mod 256, zero again once all have finished. */
  lemma UndisturbedCounter(events: seq<Event>, id: ProposalID)
    requires Delete(id) !in events
    ensures var w := Run(events);
            && Voter.PendingCount(w.pending, id) == InFlight(w, id) % 256
            && (w.waiting == map[] ==> Voter.PendingCount(w.pending, id) == 0)
  {
    CounterCounts(events, id);
    NeverDeleted(events, id);
    if Run(events).waiting == map[] {
      assert Waiting(Run(events), id) == {};
    }
  }

  /** Once all have finished, a deletion has left nothing behind exactly when the number in flight
      at that deletion was a multiple of 256; otherwise the decrements have wrapped below zero. */
  lemma LeftoverAfterDeletion(events: seq<Event>, id: ProposalID)
    requires Run(events).waiting == map[]
    ensures Voter.PendingCount(Run(events).pending, id) == 0 <==> AtDelete(Run(events), id) % 256 == 0
    ensures Voter.PendingCount(Run(events).pending, id) == (256 - AtDelete(Run(events), id) % 256) % 256
  {
    CounterCounts(events, id);
    assert Waiting(Run(events), id) == {};
    NegatedMod(AtDelete(Run(events), id));
  }

  lemma NegatedMod(n: nat)
    ensures (0 - n) % 256 == (256 - n % 256) % 256
    ensures (0 - n) % 256 == 0 <==> n % 256 == 0
  {
    var q, r := n / 256, n % 256;
    if r == 0 {
      RemainderIs(0 - n, -q, 0);
    } else {
      RemainderIs(0 - n, -q - 1, 256 - r);
    }
  }

  lemma RemainderIs(n: int, q: int, r: nat)
    requires n == 256 * q + r && r < 256
    ensures n % 256 == r
  {
  }

  /** One vote in flight when the entry is deleted leaves 255 pending votes behind. */
  lemma OneDeletedInFlight(id: ProposalID)
    ensures var w := Run([Increment(0, id), Delete(id), Decrement(0)]);
            w.waiting == map[] && Voter.PendingCount(w.pending, id) == 255
  {
    var events := [Increment(0, id), Delete(id), Decrement(0)];
    assert events[..2] == [Increment(0, id), Delete(id)] && events[..2][..1] == [Increment(0, id)];
    assert events[..2][..1][..0] == [];
    var w0 := World(map[], map[], {}, map[]);
    assert Run(events[..2][..1][..0]) == w0;
    assert Run(events[..2][..1]) == Next(w0, Increment(0, id));
    assert Run(events[..2]) == Next(Next(w0, Increment(0, id)), Delete(id));
  }

  /** It happens: what a deletion leaves behind wraps the sum to zero, and the voter sees a proposal
      with one confirmed vote below a threshold of one. */
  lemma LeftoverHidesVotes(id: ProposalID, status: uint8)
    requires status !in {Voter.STATUS_EXECUTED, Voter.STATUS_CANCELED}
    ensures var w := Run([Increment(0, id), Delete(id), Decrement(0)]);
            var p := Voter.VotePoll(Some(Voter.ProposalStatus(status, 1)), Some(1), w.pending);
            Voter.Observe(p, id) == Voter.Below
  {
    OneDeletedInFlight(id);
  }
}
