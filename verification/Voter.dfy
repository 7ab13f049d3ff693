/** The voter: whether to vote, simulating the vote, and voting. */
module Voter {
  import opened Bytes
  import opened Identifiers
  import opened Messages

  const MAX_SIMULATE_VOTE_CHECKS := 5
  const MAX_SHOULD_VOTE_CHECKS := 40

  const STATUS_EXECUTED: uint8 := 3
  const STATUS_CANCELED: uint8 := 4

  type ProposalID = seq<byte>
  type Counters = map<ProposalID, uint8>

  datatype ProposalStatus = ProposalStatus(status: uint8, yesVotesTotal: uint8)

  /** What one poll meets: the contract's answers, and the pending votes as the other goroutines
      have left them by then. */
  datatype VotePoll = VotePoll(status: Option<ProposalStatus>, threshold: Option<uint8>, pending: Counters)

  datatype Observation = Failed | Finalised | Satisfied | Below

  function PendingCount(pending: Counters, propID: ProposalID): uint8 {
    if propID in pending then pending[propID] else 0
  }

  /** `pending[propID] += delta` on a uint8; a missing entry counts as zero. */
  function Bump(pending: Counters, propID: ProposalID, delta: int): Counters {
    pending[propID := (PendingCount(pending, propID) + delta) % 256]
  }

  /** The sum of confirmed and pending votes is a uint8 and wraps. */
  function Observe(p: VotePoll, propID: ProposalID): Observation {
    if p.status.None? then Failed
    else if p.status.value.status == STATUS_EXECUTED || p.status.value.status == STATUS_CANCELED then Finalised
    else if p.threshold.None? then Failed
    else if (p.status.value.yesVotesTotal + PendingCount(p.pending, propID)) % 256 >= p.threshold.value then Satisfied
    else Below
  }

  /** The observations in terms of the contract's answers: 3 is executed, 4 is cancelled. */
  lemma ObserveExactly(p: VotePoll, propID: ProposalID)
    ensures Observe(p, propID) == Finalised <==> p.status.Some? && p.status.value.status in {3, 4}
    ensures Observe(p, propID) == Failed
            <==> p.status.None? || (p.status.value.status !in {3, 4} && p.threshold.None?)
    ensures Observe(p, propID) == Satisfied
            <==> && p.status.Some? && p.status.value.status !in {3, 4} && p.threshold.Some?
                 && (p.status.value.yesVotesTotal + PendingCount(p.pending, propID)) % 256 >= p.threshold.value
    ensures PendingCount(p.pending, propID) == if propID in p.pending then p.pending[propID] else 0
  {
  }

  function Verdict(o: Observation): Outcome<bool> {
    match o
    case Failed => Error
    case Finalised => Ok(false)
    case Satisfied => Ok(true)
    case Below => Ok(true)
  }

  /** Polling from number `tries` on ends with poll `last`: the first one that is not merely
      satisfied, or number 40. */
  ghost predicate StopsAt(answers: nat -> VotePoll, propID: ProposalID, tries: nat, last: nat) {
    && tries <= last && (last <= MAX_SHOULD_VOTE_CHECKS || last == tries)
    && (forall k: nat :: tries <= k < last ==> Observe(answers(k), propID) == Satisfied)
    && (Observe(answers(last), propID) == Satisfied ==> last >= MAX_SHOULD_VOTE_CHECKS)
  }

  lemma StopsOnce(answers: nat -> VotePoll, propID: ProposalID, tries: nat, last: nat, last': nat)
    requires StopsAt(answers, propID, tries, last) && StopsAt(answers, propID, tries, last')
    ensures last == last'
  {
    assert last < last' ==> Observe(answers(last), propID) == Satisfied;
    assert last' < last ==> Observe(answers(last'), propID) == Satisfied;
  }

  /** Without failed calls the voter declines exactly when one of the 41 polls meets an executed or
      cancelled status and every poll before it saw the threshold met, in uint8 arithmetic; otherwise it
      votes. */
  lemma DeclinesExactlyWhenFinalisedFirst(answers: nat -> VotePoll, propID: ProposalID, last: nat)
    requires StopsAt(answers, propID, 0, last)
    requires forall k: nat :: k <= last ==>
               answers(k).status.Some? && (answers(k).status.value.status in {3, 4} || answers(k).threshold.Some?)
    ensures Verdict(Observe(answers(last), propID)) == Ok(false)
            <==> exists k: nat :: k <= 40 && answers(k).status.Some? && answers(k).status.value.status in {3, 4}
                   && forall j: nat :: j < k ==>
                        && answers(j).status.Some? && answers(j).status.value.status !in {3, 4}
                        && answers(j).threshold.Some?
                        && (answers(j).status.value.yesVotesTotal + PendingCount(answers(j).pending, propID)) % 256
                           >= answers(j).threshold.value
    ensures Verdict(Observe(answers(last), propID)) in {Ok(false), Ok(true)}
  {
    forall k: nat
      ensures Observe(answers(k), propID) == Finalised
              <==> answers(k).status.Some? && answers(k).status.value.status in {3, 4}
      ensures Observe(answers(k), propID) == Satisfied
              <==> && answers(k).status.Some? && answers(k).status.value.status !in {3, 4}
                   && answers(k).threshold.Some?
                   && (answers(k).status.value.yesVotesTotal + PendingCount(answers(k).pending, propID)) % 256
                      >= answers(k).threshold.value
    {
      ObserveExactly(answers(k), propID);
    }
    ObserveExactly(answers(last), propID);
    FirstFinal(answers, propID, last);
  }

  lemma FirstFinal(answers: nat -> VotePoll, propID: ProposalID, last: nat)
    requires StopsAt(answers, propID, 0, last)
    ensures Observe(answers(last), propID) == Finalised
            <==> exists k: nat :: k <= 40 && Observe(answers(k), propID) == Finalised
                                  && forall j: nat :: j < k ==> Observe(answers(j), propID) == Satisfied
  {
    if k: nat :| k <= 40 && Observe(answers(k), propID) == Finalised
                 && forall j: nat :: j < k ==> Observe(answers(j), propID) == Satisfied {
      assert k < last ==> Observe(answers(k), propID) == Satisfied;
      assert last < k ==> Observe(answers(last), propID) == Satisfied;
    }
  }

  /** The wrap decides against the real sum exactly when that reaches 256 and leaves less than the
      threshold: the voter then votes although the threshold is met. */
  lemma WrapHidesVotes(p: VotePoll, propID: ProposalID)
    requires p.status.Some? && p.threshold.Some? && p.status.value.status !in {STATUS_EXECUTED, STATUS_CANCELED}
    ensures var sum := p.status.value.yesVotesTotal + PendingCount(p.pending, propID);
            Observe(p, propID) == Below
            <==> sum < p.threshold.value || (sum >= 256 && sum - 256 < p.threshold.value)
  {
    var sum := p.status.value.yesVotesTotal + PendingCount(p.pending, propID);
    assert sum % 256 == if sum >= 256 then sum - 256 else sum;
  }

  datatype RemoteCall = HandleMessage | IsProposalVotedBy | CheckProposal | SimulateVote | Vote

  /** The remote answers one call of VoteProposal meets. */
  datatype Answers = Answers(handled: Option<Proposal>, votedBy: Option<bool>, polls: nat -> VotePoll,
                             simulations: nat -> bool, sent: bool)

  /** The calls of a run that polled and simulated so many times. */
  function Calls(asked: bool, polls: nat, simulations: nat, voted: bool): seq<RemoteCall> {
    [HandleMessage] + (if asked then [IsProposalVotedBy] else [])
    + seq(polls, _ => CheckProposal) + seq(simulations, _ => SimulateVote)
    + (if voted then [Vote] else [])
  }

  /** Which call is made when. */
  lemma CallsInTurn(asked: bool, polls: nat, simulations: nat, voted: bool)
    ensures var calls, a := Calls(asked, polls, simulations, voted), if asked then 2 else 1;
            && |calls| == a + polls + simulations + (if voted then 1 else 0)
            && calls[0] == HandleMessage && (asked ==> calls[1] == IsProposalVotedBy)
            && (forall i :: a <= i < a + polls ==> calls[i] == CheckProposal)
            && (forall i :: a + polls <= i < a + polls + simulations ==> calls[i] == SimulateVote)
            && (voted ==> calls[a + polls + simulations] == Vote)
  {
  }

  class EVMVoter {
    var pendingProposalVotes: Counters

    constructor ()
      ensures pendingProposalVotes == map[]
    {
      pendingProposalVotes := map[];
    }

    /** The goroutine of a pending vote transaction, before it waits for the receipt. */
    method CountTransaction(propID: ProposalID)
      modifies this
      ensures pendingProposalVotes == Bump(old(pendingProposalVotes), propID, 1)
    {
      var count := if propID in pendingProposalVotes then pendingProposalVotes[propID] else 0;
      var next: uint8 := if count == 255 then 0 else count + 1;
      pendingProposalVotes := pendingProposalVotes[propID := next];
    }

    /** The same goroutine after the receipt arrived, or waiting for it failed. */
    method UncountTransaction(propID: ProposalID)
      modifies this
      ensures pendingProposalVotes == Bump(old(pendingProposalVotes), propID, -1)
    {
      var count := if propID in pendingProposalVotes then pendingProposalVotes[propID] else 0;
      var next: uint8 := if count == 0 then 255 else count - 1;
      pendingProposalVotes := pendingProposalVotes[propID := next];
    }

    /** The deferred deletes run when the recursion unwinds, after the last poll. */
    method ShouldVoteForProposal(propID: ProposalID, tries: nat, answers: nat -> VotePoll)
      returns (r: Outcome<bool>, polls: nat)
      modifies this
      ensures polls >= 1
      ensures var last := tries + polls - 1;
              && StopsAt(answers, propID, tries, last)
              && r == Verdict(Observe(answers(last), propID))
              && pendingProposalVotes == answers(last).pending - {propID}
      ensures var p := answers(tries + polls - 1);
              && (r == Ok(false) <==> p.status.Some? && p.status.value.status in {3, 4})
              && (r.Error? <==> p.status.None? || (p.status.value.status !in {3, 4} && p.threshold.None?))
              && !r.Panic?
      ensures tries == 0 ==> polls <= 41
      decreases MAX_SHOULD_VOTE_CHECKS - tries
    {
      var p := answers(tries);
      pendingProposalVotes := p.pending;
      polls := 1;
      if p.status.None? {
        r := Error;
      } else if p.status.value.status == STATUS_EXECUTED || p.status.value.status == STATUS_CANCELED {
        r := Ok(false);
      } else if p.threshold.None? {
        r := Error;
      } else if (p.status.value.yesVotesTotal + PendingCount(pendingProposalVotes, propID)) % 256 >= p.threshold.value
                && tries < MAX_SHOULD_VOTE_CHECKS {
        r, polls := ShouldVoteForProposal(propID, tries + 1, answers);
        polls := polls + 1;
      } else {
        r := Ok(true);
      }
      pendingProposalVotes := pendingProposalVotes - {propID};
    }

    /** Simulates until a simulation succeeds, at most six times. */
    method RepetitiveSimulateVote(tries: nat, answers: nat -> bool) returns (r: Outcome<()>, attempts: nat)
      ensures attempts >= 1 && (tries <= MAX_SIMULATE_VOTE_CHECKS ==> tries + attempts <= MAX_SIMULATE_VOTE_CHECKS + 1)
      ensures forall k: nat :: tries <= k < tries + attempts - 1 ==> !answers(k)
      ensures r == if answers(tries + attempts - 1) then Ok(()) else Error
      ensures r.Error? ==> tries + attempts > MAX_SIMULATE_VOTE_CHECKS
      ensures tries == 0 ==> attempts <= 6 && (r.Error? ==> attempts == 6)
      decreases MAX_SIMULATE_VOTE_CHECKS - tries
    {
      attempts := 1;
      if !answers(tries) {
        if tries < MAX_SIMULATE_VOTE_CHECKS {
          r, attempts := RepetitiveSimulateVote(tries + 1, answers);
          attempts := attempts + 1;
          return;
        }
        return Error, 1;
      }
      r := Ok(());
    }

    /** At most one vote is sent, and only after the not-yet-voted answer, a decision to vote and a
        successful simulation, in this order; every other outcome is accounted for. */
    method VoteProposal(a: Answers) returns (r: Outcome<()>, calls: seq<RemoteCall>, polls: nat, simulations: nat)
      modifies this
      ensures var asked := a.handled.Some?;
              var deciding := asked && a.votedBy == Some(false);
              var voted := simulations > 0 && a.simulations(simulations - 1);
              && calls == Calls(asked, polls, simulations, voted)
              && (polls > 0 <==> deciding)
              && (deciding ==> StopsAt(a.polls, IdHashInput(a.handled.value), 0, polls - 1))
              && (simulations > 0
                  <==> deciding && Verdict(Observe(a.polls(polls - 1), IdHashInput(a.handled.value))) == Ok(true))
              && simulations <= 6 && polls <= 41
              && (forall k: nat :: k < simulations - 1 ==> !a.simulations(k))
              && (simulations > 0 && !voted ==> simulations == 6)
              && (r == Ok(()) <==>
                    asked && a.votedBy.Some? &&
                    (deciding ==>
                      var d := Verdict(Observe(a.polls(polls - 1), IdHashInput(a.handled.value)));
                      d == Ok(false) || (d == Ok(true) && voted && a.sent)))
              && !r.Panic?
      ensures Vote in calls ==>
                && polls > 0 && a.polls(polls - 1).status.Some?
                && a.polls(polls - 1).status.value.status !in {3, 4}
    {
      polls, simulations := 0, 0;
      calls := [HandleMessage];
      if a.handled.None? {
        return Error, calls, 0, 0;
      }
      var propID := IdHashInput(a.handled.value);
      calls := calls + [IsProposalVotedBy];
      if a.votedBy.None? {
        return Error, calls, 0, 0;
      }
      if a.votedBy.value {
        return Ok(()), calls, 0, 0;
      }
      var decision;
      decision, polls := ShouldVoteForProposal(propID, 0, a.polls);
      calls := calls + seq(polls, _ => CheckProposal);
      if decision.Error? {
        return Error, calls, polls, 0;
      }
      if decision == Ok(false) {
        return Ok(()), calls, polls, 0;
      }
      r, simulations := RepetitiveSimulateVote(0, a.simulations);
      calls := calls + seq(simulations, _ => SimulateVote);
      if r.Error? {
        return;
      }
      calls := calls + [Vote];
      if !a.sent {
        r := Error;
      }
    }
  }

  /** What the order of calls amounts to: one vote at most, and nothing after it. */
  lemma VoteIsLast(asked: bool, polls: nat, simulations: nat, voted: bool)
    ensures var calls := Calls(asked, polls, simulations, voted);
            && (Vote in calls <==> voted)
            && (forall i :: 0 <= i < |calls| && calls[i] == Vote ==> i == |calls| - 1)
            && (forall i, j :: 0 <= i < j < |calls| && calls[j] == CheckProposal ==> calls[i] != SimulateVote)
  {
    var calls := Calls(asked, polls, simulations, voted);
    if voted {
      assert calls[|calls| - 1] == Vote;
    }
  }
}
