/** The forwarder's nonce manager and the transactor's critical section around it. */
module Forwarder {
  import opened BigInts
  import opened Bytes
  import opened Messages
  import opened NonceRuns
  import opened Stores

  class MinimalForwarder {
    var nonce: BigInt?
    var locked: bool
    const chainID: BigInt
    const nonceStore: NonceStore

    constructor (chainID: BigInt, nonceStore: NonceStore)
      ensures nonce == null && !locked && this.chainID == chainID && this.nonceStore == nonceStore
    {
      nonce, locked := null, false;
      this.chainID, this.nonceStore := chainID, nonceStore;
    }

    ghost predicate Valid()
      reads this, nonce
    {
      nonce != null ==> nonce.v >= 0 && nonce != chainID
    }

    ghost function NonceValue(): Option<nat>
      requires Valid()
      reads this, nonce
    {
      if nonce == null then None else Some(nonce.v)
    }

    ghost function Persisted(): nat
      reads this, nonceStore.db, chainID
    {
      StoredNonce(nonceStore.db.data, chainID.v)
    }

    method LockNonce()
      requires !locked
      modifies this`locked
      ensures locked
    {
      locked := true;
    }

    /** Stores the nonce and releases the lock, whether or not the store succeeds; with no nonce set
        it panics before releasing. */
    method UnlockNonce(ok: bool) returns (panicked: bool)
      requires Valid() && locked
      modifies this`locked, nonceStore.db
      ensures panicked <==> nonce == null
      ensures locked == panicked
      ensures Persisted() == if nonce != null && ok then nonce.v else old(Persisted())
    {
      var r := nonceStore.StoreNonce(chainID, nonce, ok);
      if r.Panic? {
        return true;
      }
      locked := false;
      panicked := false;
    }

    /** A nonce that is not set yet becomes the higher one of storage and contract; what is returned
        is a copy, narrowed to int64. */
    method UnsafeNonce(readable: bool, contractNonce: Option<nat>) returns (r: Outcome<BigInt>)
      requires Valid()
      modifies this`nonce
      ensures Valid()
      ensures old(nonce) != null ==> nonce == old(nonce) && r.Ok?
      ensures old(nonce) == null ==> (r.Ok? <==> readable && contractNonce.Some?) && (r.Ok? <==> nonce != null)
      ensures old(nonce) == null && r.Ok? ==>
                && fresh(nonce) && nonce.v >= Persisted() && nonce.v >= contractNonce.value
                && (nonce.v == Persisted() || nonce.v == contractNonce.value)
      ensures r.Ok? ==> fresh(r.value) && r.value != nonce && r.value.v == Int64(nonce.v)
      ensures !r.Panic?
    {
      if nonce == null {
        var storedNonce := nonceStore.GetNonce(chainID, readable);
        if storedNonce.Error? {
          return Error;
        }
        if contractNonce.None? {
          return Error;
        }
        var fromContract := new BigInt(contractNonce.value);
        var cmp := storedNonce.value.Cmp(fromContract);
        if cmp >= 0 {
          nonce := storedNonce.value;
        } else {
          nonce := fromContract;
        }
      }
      var copy := new BigInt(Int64(nonce.v));
      r := Ok(copy);
    }

    method UnsafeIncreaseNonce()
      requires Valid() && nonce != null
      modifies nonce
      ensures Valid() && nonce.v == old(nonce.v) + 1
    {
      var one := new BigInt(1);
      nonce.Add(nonce, one);
    }
  }

  /** The remote answers one transaction meets; `prepared` is whether packing and signing succeed. */
  datatype Answers = Answers(merged: bool, readable: bool, contractNonce: Option<nat>, prepared: bool,
                             acknowledged: bool, stored: bool)

  /** The steps of a transaction in the runs of NonceRuns. */
  function StepsOf(a: Answers): seq<Event> {
    if !a.merged then []
    else
      [Acquire, Load(a.readable, a.contractNonce.Some?)]
      + (if a.prepared && a.acknowledged then [Send, Increase] else [Abandon])
      + [Store(a.stored), Release]
  }

  /** A process between transactions, seen from memory and storage. */
  ghost predicate Shows(w: World, f: MinimalForwarder, onchain: nat)
    reads f, f.nonce, f.nonceStore.db, f.chainID
    requires f.Valid()
  {
    w.alive && w.holder.None? && w.nonce == f.NonceValue() && w.stored == f.Persisted() && w.onchain == onchain
  }

  /** The transaction as a whole is a run of its steps: it ends between transactions again with the
      nonce in memory, the stored nonce and the acknowledged send that the run has, or it panics
      where the run's process dies. */
  method Transact(f: MinimalForwarder, a: Answers, ghost w: World) returns (r: Outcome<()>, sent: Option<int>)
    requires f.Valid() && !f.locked
    requires Shows(w, f, if a.contractNonce.Some? then a.contractNonce.value else w.onchain)
    modifies f, f.nonce, f.nonceStore.db
    ensures f.Valid()
    ensures var w' := Run(w, StepsOf(a));
            && (r.Panic? <==> !w'.alive)
            && (r.Ok? <==> sent.Some?)
            && w'.sent == w.sent + (if sent.Some? then [sent.value] else [])
            && (!r.Panic? ==> !f.locked && Shows(w', f, w.onchain))
            && (r.Panic? ==> w'.stored == f.Persisted())
  {
    sent := None;
    if !a.merged {
      return Error, None;
    }
    TransactionRun(w, a);
    f.LockNonce();
    r, sent := Critical(f, a);
    var panicked := f.UnlockNonce(a.stored);
    if panicked {
      r := Panic;
    }
  }

  /** The part of the transaction that runs under the lock. */
  method Critical(f: MinimalForwarder, a: Answers) returns (r: Outcome<()>, sent: Option<int>)
    requires f.Valid() && f.locked
    modifies f`nonce, f.nonce
    ensures f.Valid()
    ensures f.nonce == null <==> old(f.nonce) == null && !(a.readable && a.contractNonce.Some?)
    ensures r == if f.nonce != null && a.prepared && a.acknowledged then Ok(()) else Error
    ensures r.Ok? <==> sent.Some?
    ensures f.nonce != null ==>
              var n := f.nonce.v - if sent.Some? then 1 else 0;
              && (sent.Some? ==> sent.value == Int64(n))
              && (old(f.nonce) != null ==> n == old(f.nonce.v))
              && (old(f.nonce) == null ==> n >= f.Persisted() && n >= a.contractNonce.value
                                           && (n == f.Persisted() || n == a.contractNonce.value))
    ensures f.Persisted() == old(f.Persisted())
  {
    var nonce := f.UnsafeNonce(a.readable, a.contractNonce);
    if nonce.Error? {
      return Error, None;
    }
    if !a.prepared {
      return Error, None;
    }
    if !a.acknowledged {
      return Error, None;
    }
    sent := Some(nonce.value.v);
    f.UnsafeIncreaseNonce();
    r := Ok(());
  }

  /** What the run of a transaction's steps amounts to. */
  lemma TransactionRun(w: World, a: Answers)
    requires w.alive && w.holder.None? && a.merged
    ensures var w' := Run(w, StepsOf(a));
            var loads := w.nonce.Some? || (a.readable && a.contractNonce.Some?);
            var sends := loads && a.prepared && a.acknowledged;
            var after := if sends then Upcoming(w) + 1 else Upcoming(w);
            && w'.alive == loads
            && w'.onchain == w.onchain && w'.holder.None?
            && w'.nonce == (if loads then Some(after) else None)
            && w'.stored == (if loads && a.stored then after else w.stored)
            && w'.sent == w.sent + if sends then [Int64(Upcoming(w))] else []
  {
    var enter := [Acquire, Load(a.readable, a.contractNonce.Some?)];
    var leave := [Store(a.stored), Release];
    var sends := a.prepared && a.acknowledged;
    var work := if sends then [Send, Increase] else [Abandon];
    RunThree(w, enter, work, leave);
    RunTwo(w, Acquire, Load(a.readable, a.contractNonce.Some?));
    var w1 := Run(w, enter);
    if w1.alive {
      WorkAndLeave(w1, sends, a.stored);
    } else {
      DeadStays(w1, work);
      DeadStays(Run(w1, work), leave);
    }
  }

  /** Without a process nothing happens but its restart and what happens on chain. */
  lemma {:induction false} DeadStays(w: World, events: seq<Event>)
    requires !w.alive && w.holder.None?
    requires forall e :: e in events ==> !e.Restart? && !e.Mined? && !e.Crash?
    ensures Run(w, events) == w
  {
    if events != [] {
      DeadStays(w, events[..|events| - 1]);
    }
  }
}
