/** The `VotingContract` election state machine: one admin, fixed at
    deployment, creates time-boxed elections, adds candidates before an
    election starts and registers voters; registered voters vote once each
    inside the voting window; the admin ends an election, which fixes its
    winner. The caller's address and the block time are explicit
    parameters; each transaction returns the event it emits or the reason
    it reverts, and emitted events are also appended to `events`. */
module Voting {
  import opened ElectionTypes
  import opened Tally
  import opened Rules

  /** A stored voter entry: only registration creates one. */
  ghost predicate VoterInvariant(s: VoterStatus, candidateCount: nat) {
    && s.isRegistered
    && (s.hasVoted <==> s.votedCandidateId != 0)
    && s.votedCandidateId <= candidateCount
  }

  /** The header of election `id` agrees with its candidate list, and a
      recorded winner is a candidate with the most votes. */
  ghost predicate HeaderInvariant(id: nat, e: Election, cs: seq<Candidate>) {
    && e.id == id
    && e.startTime < e.endTime
    && e.candidateCount == |cs|
    && (forall j :: 0 <= j < |cs| ==> cs[j].id == j + 1)
    && (e.isActive ==> e.winnerId == 0)
    && e.winnerId <= |cs|
    && (e.winnerId != 0 ==> forall j :: 0 <= j < |cs| ==> cs[j].voteCount <= cs[e.winnerId - 1].voteCount)
  }

  /** The tallies of election `id` are the ballots the log records for it:
      per candidate, none for an id that is not a candidate, and in total. */
  ghost predicate TallyInvariant(id: nat, e: Election, cs: seq<Candidate>, log: seq<Event>) {
    && e.totalVotes == SumVotes(cs)
    && e.totalVotes == BallotsIn(log, id)
    && (forall j :: 0 <= j < |cs| ==> cs[j].voteCount == BallotsFor(log, id, j + 1))
    && (forall c :: c == 0 || c > |cs| ==> BallotsFor(log, id, c) == 0)
  }

  /** Every stored voter of election `id` is registered, and the log holds
      exactly one ballot by each voter who has voted and none by anyone else. */
  ghost predicate RollInvariant(id: nat, candidateCount: nat, vs: map<Address, VoterStatus>, log: seq<Event>) {
    && (forall v :: v in vs ==> VoterInvariant(vs[v], candidateCount))
    && (forall v :: BallotsBy(log, id, v) == if StatusOf(vs, v).hasVoted then 1 else 0)
  }

  /** The consistency of election `id`: its header `e`, its candidates `cs`,
      its voters `vs` and the event log `log`. */
  ghost predicate ElectionInvariant(id: nat, e: Election, cs: seq<Candidate>, vs: map<Address, VoterStatus>, log: seq<Event>) {
    HeaderInvariant(id, e, cs) && TallyInvariant(id, e, cs, log) && RollInvariant(id, |cs|, vs, log)
  }

  /** What survives any transaction: an election keeps its id, name and
      window; a closed election stays closed with the same winner; no
      candidate is removed or renamed and no count goes down; a registered
      voter stays registered and a cast vote is never changed. */
  ghost predicate Persists(
    e: Election, e': Election,
    cs: seq<Candidate>, cs': seq<Candidate>,
    vs: map<Address, VoterStatus>, vs': map<Address, VoterStatus>)
  {
    && e'.id == e.id && e'.name == e.name
    && e'.startTime == e.startTime && e'.endTime == e.endTime
    && (!e.isActive ==> !e'.isActive && e'.winnerId == e.winnerId)
    && |cs| <= |cs'|
    && (forall j :: 0 <= j < |cs| ==>
          cs'[j].id == cs[j].id && cs'[j].name == cs[j].name && cs'[j].party == cs[j].party
          && cs[j].voteCount <= cs'[j].voteCount)
    && (forall v :: v in vs ==> v in vs' && (vs[v].hasVoted ==> vs'[v] == vs[v]))
  }

  /** Emitting an event that is not a ballot of election `id` keeps its invariant. */
  lemma InvariantUnderOtherEvent(id: nat, e: Election, cs: seq<Candidate>, vs: map<Address, VoterStatus>, log: seq<Event>, ev: Event)
    requires ElectionInvariant(id, e, cs, vs, log)
    requires !IsBallot(ev, id)
    ensures ElectionInvariant(id, e, cs, vs, log + [ev])
  {
    BallotsAppend(log, ev);
  }

  lemma PersistsRefl(e: Election, cs: seq<Candidate>, vs: map<Address, VoterStatus>)
    ensures Persists(e, e, cs, cs, vs, vs)
  {
  }

  /** Appending candidate `|cs| + 1` with no votes keeps the tallies. */
  lemma AddCandidateTally(id: nat, e: Election, cs: seq<Candidate>, log: seq<Event>, name: string, party: string)
    requires TallyInvariant(id, e, cs, log)
    ensures
      TallyInvariant(id, e.(candidateCount := |cs| + 1), cs + [Candidate(|cs| + 1, name, party, 0)],
                     log + [CandidateAdded(id, |cs| + 1, name, party)])
  {
    var c := Candidate(|cs| + 1, name, party, 0);
    var cs' := cs + [c];
    BallotsAppend(log, CandidateAdded(id, |cs| + 1, name, party));
    SumVotesAppend(cs, c);
    assert forall j :: 0 <= j < |cs| ==> cs'[j] == cs[j];
  }

  /** Appending candidate `|cs| + 1` with no votes keeps the invariant. */
  lemma AddCandidateStep(id: nat, e: Election, cs: seq<Candidate>, vs: map<Address, VoterStatus>, log: seq<Event>,
                         name: string, party: string)
    requires ElectionInvariant(id, e, cs, vs, log)
    ensures
      var c := Candidate(|cs| + 1, name, party, 0);
      var e' := e.(candidateCount := |cs| + 1);
      && ElectionInvariant(id, e', cs + [c], vs, log + [CandidateAdded(id, |cs| + 1, name, party)])
      && Persists(e, e', cs, cs + [c], vs, vs)
  {
    var c := Candidate(|cs| + 1, name, party, 0);
    var cs' := cs + [c];
    AddCandidateTally(id, e, cs, log, name, party);
    BallotsAppend(log, CandidateAdded(id, |cs| + 1, name, party));
    assert forall j :: 0 <= j < |cs| ==> cs'[j] == cs[j];
    assert HeaderInvariant(id, e.(candidateCount := |cs| + 1), cs');
    assert RollInvariant(id, |cs'|, vs, log + [CandidateAdded(id, |cs| + 1, name, party)]);
  }

  /** Registering an unregistered voter keeps the invariant. */
  lemma RegisterVoterStep(id: nat, e: Election, cs: seq<Candidate>, vs: map<Address, VoterStatus>, log: seq<Event>, voter: Address)
    requires ElectionInvariant(id, e, cs, vs, log)
    requires !StatusOf(vs, voter).isRegistered
    ensures
      var vs' := vs[voter := VoterStatus(true, false, 0)];
      && ElectionInvariant(id, e, cs, vs', log + [VoterRegistered(id, voter)])
      && Persists(e, e, cs, cs, vs, vs')
  {
    BallotsAppend(log, VoterRegistered(id, voter));
    assert voter !in vs;
  }

  /** A ballot for candidate `candidateId` adds one to that candidate's
      tally and to the total, and to nothing else. */
  lemma CastVoteTally(id: nat, e: Election, cs: seq<Candidate>, log: seq<Event>, voter: Address, candidateId: nat)
    requires TallyInvariant(id, e, cs, log)
    requires 1 <= candidateId <= |cs|
    ensures
      var j := candidateId - 1;
      TallyInvariant(id, e.(totalVotes := e.totalVotes + 1), cs[j := cs[j].(voteCount := cs[j].voteCount + 1)],
                     log + [VoteCast(id, voter, candidateId)])
  {
    var j := candidateId - 1;
    BallotsAppend(log, VoteCast(id, voter, candidateId));
    SumVotesUpdate(cs, j, cs[j].(voteCount := cs[j].voteCount + 1));
  }

  /** The first ballot of a registered voter marks that voter, and only that
      voter, as having voted. */
  lemma CastVoteRoll(id: nat, n: nat, vs: map<Address, VoterStatus>, log: seq<Event>, voter: Address, candidateId: nat)
    requires RollInvariant(id, n, vs, log)
    requires StatusOf(vs, voter).isRegistered && !StatusOf(vs, voter).hasVoted
    requires 1 <= candidateId <= n
    ensures RollInvariant(id, n, vs[voter := VoterStatus(true, true, candidateId)], log + [VoteCast(id, voter, candidateId)])
  {
    BallotsAppend(log, VoteCast(id, voter, candidateId));
  }

  /** Recording the first vote of a registered voter for an existing
      candidate of an open election keeps the invariant. */
  lemma CastVoteStep(id: nat, e: Election, cs: seq<Candidate>, vs: map<Address, VoterStatus>, log: seq<Event>,
                     voter: Address, candidateId: nat)
    requires ElectionInvariant(id, e, cs, vs, log)
    requires e.isActive
    requires StatusOf(vs, voter).isRegistered && !StatusOf(vs, voter).hasVoted
    requires 1 <= candidateId <= |cs|
    ensures
      var j := candidateId - 1;
      var cs' := cs[j := cs[j].(voteCount := cs[j].voteCount + 1)];
      var vs' := vs[voter := VoterStatus(true, true, candidateId)];
      var e' := e.(totalVotes := e.totalVotes + 1);
      && ElectionInvariant(id, e', cs', vs', log + [VoteCast(id, voter, candidateId)])
      && Persists(e, e', cs, cs', vs, vs')
  {
    CastVoteTally(id, e, cs, log, voter, candidateId);
    CastVoteRoll(id, |cs|, vs, log, voter, candidateId);
  }

  /** Closing an open election with a winner report for its candidates
      keeps the invariant. */
  lemma EndElectionStep(id: nat, e: Election, cs: seq<Candidate>, vs: map<Address, VoterStatus>, log: seq<Event>,
                        winnerId: nat, winningVoteCount: nat)
    requires ElectionInvariant(id, e, cs, vs, log)
    requires e.isActive
    requires IsWinnerReport(cs, winnerId, winningVoteCount)
    ensures
      var e' := e.(isActive := false, winnerId := winnerId);
      && ElectionInvariant(id, e', cs, vs, log + [ElectionEnded(id, winnerId, winningVoteCount)])
      && Persists(e, e', cs, cs, vs, vs)
  {
    BallotsAppend(log, ElectionEnded(id, winnerId, winningVoteCount));
  }

  /** The invariant of the whole contract state: one header, one candidate
      list and one voter mapping per allocated id, each election consistent,
      and no ballot in the log for an id never allocated. */
  ghost predicate StateInvariant(
    count: nat, els: seq<Election>, css: seq<seq<Candidate>>, vss: seq<map<Address, VoterStatus>>, log: seq<Event>)
  {
    && count == |els| && |css| == |els| && |vss| == |els|
    && (forall k :: 0 <= k < |els| ==> ElectionInvariant(k + 1, els[k], css[k], vss[k], log))
    && (forall id :: id == 0 || id > |els| ==> BallotsIn(log, id) == 0)
  }

  /** The state `els', css', vss', log'` is a successor of `els, css, vss,
      log`: no election is lost, each keeps what `Persists` promises, and
      the event log only grows. */
  ghost predicate Extends(
    els: seq<Election>, css: seq<seq<Candidate>>, vss: seq<map<Address, VoterStatus>>, log: seq<Event>,
    els': seq<Election>, css': seq<seq<Candidate>>, vss': seq<map<Address, VoterStatus>>, log': seq<Event>)
  {
    && |els| <= |els'| && |css| == |els| && |css'| == |els'| && |vss| == |els| && |vss'| == |els'|
    && log <= log'
    && forall k :: 0 <= k < |els| ==> Persists(els[k], els'[k], css[k], css'[k], vss[k], vss'[k])
  }

  /** Every state is a successor of itself: a reverted transaction keeps `Extends`. */
  lemma ExtendsRefl(els: seq<Election>, css: seq<seq<Candidate>>, vss: seq<map<Address, VoterStatus>>, log: seq<Event>)
    requires |css| == |els| && |vss| == |els|
    ensures Extends(els, css, vss, log, els, css, vss, log)
  {
    forall k | 0 <= k < |els|
      ensures Persists(els[k], els[k], css[k], css[k], vss[k], vss[k])
    {
      PersistsRefl(els[k], css[k], vss[k]);
    }
  }

  /** The elections other than `k + 1`, left as they were, stay consistent
      and persist when one more event is emitted that is not a ballot for
      any of them. */
  lemma OthersKeep(
    count: nat, els: seq<Election>, css: seq<seq<Candidate>>, vss: seq<map<Address, VoterStatus>>, log: seq<Event>,
    els': seq<Election>, css': seq<seq<Candidate>>, vss': seq<map<Address, VoterStatus>>, k: nat, ev: Event)
    requires StateInvariant(count, els, css, vss, log)
    requires k < |els| && |els'| == |els| && |css'| == |els| && |vss'| == |els|
    requires forall k' :: 0 <= k' < |els| && k' != k ==> els'[k'] == els[k'] && css'[k'] == css[k'] && vss'[k'] == vss[k']
    requires forall id :: id != k + 1 ==> !IsBallot(ev, id)
    ensures forall k' :: 0 <= k' < |els| && k' != k ==>
      && ElectionInvariant(k' + 1, els'[k'], css'[k'], vss'[k'], log + [ev])
      && Persists(els[k'], els'[k'], css[k'], css'[k'], vss[k'], vss'[k'])
    ensures forall id :: id == 0 || id > |els| ==> BallotsIn(log + [ev], id) == 0
  {
    BallotsAppend(log, ev);
    forall k' | 0 <= k' < |els| && k' != k
      ensures ElectionInvariant(k' + 1, els'[k'], css'[k'], vss'[k'], log + [ev])
      ensures Persists(els[k'], els'[k'], css[k'], css'[k'], vss[k'], vss'[k'])
    {
      InvariantUnderOtherEvent(k' + 1, els[k'], css[k'], vss[k'], log, ev);
      PersistsRefl(els[k'], css[k'], vss[k']);
    }
  }

  /** A state whose election `k + 1` is consistent and persists, and whose
      other elections do too, is consistent and a successor. */
  lemma Assemble(
    count: nat, els: seq<Election>, css: seq<seq<Candidate>>, vss: seq<map<Address, VoterStatus>>, log: seq<Event>,
    els': seq<Election>, css': seq<seq<Candidate>>, vss': seq<map<Address, VoterStatus>>, log': seq<Event>, k: nat)
    requires StateInvariant(count, els, css, vss, log)
    requires k < |els| && |els'| == |els| && |css'| == |els| && |vss'| == |els| && log <= log'
    requires ElectionInvariant(k + 1, els'[k], css'[k], vss'[k], log')
    requires Persists(els[k], els'[k], css[k], css'[k], vss[k], vss'[k])
    requires forall k' :: 0 <= k' < |els| && k' != k ==>
      && ElectionInvariant(k' + 1, els'[k'], css'[k'], vss'[k'], log')
      && Persists(els[k'], els'[k'], css[k'], css'[k'], vss[k'], vss'[k'])
    requires forall id :: id == 0 || id > |els| ==> BallotsIn(log', id) == 0
    ensures StateInvariant(count, els', css', vss', log')
    ensures Extends(els, css, vss, log, els', css', vss', log')
  {
  }

  /** `createElection` on values: a new active election with id `count + 1`. */
  lemma CreateElectionKeeps(
    count: nat, els: seq<Election>, css: seq<seq<Candidate>>, vss: seq<map<Address, VoterStatus>>, log: seq<Event>,
    name: string, startTime: nat, endTime: nat,
    els': seq<Election>, css': seq<seq<Candidate>>, vss': seq<map<Address, VoterStatus>>, log': seq<Event>)
    requires StateInvariant(count, els, css, vss, log)
    requires startTime < endTime
    requires els' == els + [Election(count + 1, name, startTime, endTime, true, 0, 0, 0)]
    requires css' == css + [[]] && vss' == vss + [map[]]
    requires log' == log + [ElectionCreated(count + 1, name, startTime, endTime)]
    ensures StateInvariant(count + 1, els', css', vss', log')
    ensures Extends(els, css, vss, log, els', css', vss', log')
  {
    var ev := ElectionCreated(count + 1, name, startTime, endTime);
    BallotsAppend(log, ev);
    NoBallotsIn(log, count + 1);
    forall k | 0 <= k < |els|
      ensures ElectionInvariant(k + 1, els'[k], css'[k], vss'[k], log')
      ensures Persists(els[k], els'[k], css[k], css'[k], vss[k], vss'[k])
    {
      assert els'[k] == els[k] && css'[k] == css[k] && vss'[k] == vss[k];
      InvariantUnderOtherEvent(k + 1, els[k], css[k], vss[k], log, ev);
      PersistsRefl(els[k], css[k], vss[k]);
    }
  }

  /** `addCandidate` on values: candidate `candidateCount + 1` of election
      `k + 1`, with no votes. */
  lemma AddCandidateKeeps(
    count: nat, els: seq<Election>, css: seq<seq<Candidate>>, vss: seq<map<Address, VoterStatus>>, log: seq<Event>,
    k: nat, name: string, party: string,
    els': seq<Election>, css': seq<seq<Candidate>>, log': seq<Event>)
    requires StateInvariant(count, els, css, vss, log)
    requires k < |els|
    requires els' == els[k := els[k].(candidateCount := els[k].candidateCount + 1)]
    requires css' == css[k := css[k] + [Candidate(els[k].candidateCount + 1, name, party, 0)]]
    requires log' == log + [CandidateAdded(k + 1, els[k].candidateCount + 1, name, party)]
    ensures StateInvariant(count, els', css', vss, log')
    ensures Extends(els, css, vss, log, els', css', vss, log')
  {
    AddCandidateStep(k + 1, els[k], css[k], vss[k], log, name, party);
    OthersKeep(count, els, css, vss, log, els', css', vss, k, log'[|log|]);
    assert log' == log + [log'[|log|]];
    Assemble(count, els, css, vss, log, els', css', vss, log', k);
  }

  /** `registerVoter` on values: `voter` becomes registered in election `k + 1`. */
  lemma RegisterVoterKeeps(
    count: nat, els: seq<Election>, css: seq<seq<Candidate>>, vss: seq<map<Address, VoterStatus>>, log: seq<Event>,
    k: nat, voter: Address,
    vss': seq<map<Address, VoterStatus>>, log': seq<Event>)
    requires StateInvariant(count, els, css, vss, log)
    requires k < |els| && !StatusOf(vss[k], voter).isRegistered
    requires vss' == vss[k := vss[k][voter := VoterStatus(true, false, 0)]]
    requires log' == log + [VoterRegistered(k + 1, voter)]
    ensures StateInvariant(count, els, css, vss', log')
    ensures Extends(els, css, vss, log, els, css, vss', log')
  {
    RegisterVoterStep(k + 1, els[k], css[k], vss[k], log, voter);
    OthersKeep(count, els, css, vss, log, els, css, vss', k, VoterRegistered(k + 1, voter));
    Assemble(count, els, css, vss, log, els, css, vss', log', k);
  }

  /** `castVote` on values: `voter`'s vote for `candidateId` in election `k + 1`. */
  lemma CastVoteKeeps(
    count: nat, els: seq<Election>, css: seq<seq<Candidate>>, vss: seq<map<Address, VoterStatus>>, log: seq<Event>,
    k: nat, voter: Address, candidateId: nat,
    els': seq<Election>, css': seq<seq<Candidate>>, vss': seq<map<Address, VoterStatus>>, log': seq<Event>)
    requires StateInvariant(count, els, css, vss, log)
    requires k < |els| && els[k].isActive
    requires StatusOf(vss[k], voter).isRegistered && !StatusOf(vss[k], voter).hasVoted
    requires 1 <= candidateId <= els[k].candidateCount
    requires els' == els[k := els[k].(totalVotes := els[k].totalVotes + 1)]
    requires css' == css[k := css[k][candidateId - 1 := css[k][candidateId - 1].(voteCount := css[k][candidateId - 1].voteCount + 1)]]
    requires vss' == vss[k := vss[k][voter := VoterStatus(true, true, candidateId)]]
    requires log' == log + [VoteCast(k + 1, voter, candidateId)]
    ensures StateInvariant(count, els', css', vss', log')
    ensures Extends(els, css, vss, log, els', css', vss', log')
  {
    CastVoteStep(k + 1, els[k], css[k], vss[k], log, voter, candidateId);
    OthersKeep(count, els, css, vss, log, els', css', vss', k, VoteCast(k + 1, voter, candidateId));
    Assemble(count, els, css, vss, log, els', css', vss', log', k);
  }

  /** `endElection` on values: election `k + 1` closes with a winner report
      for its candidates. */
  lemma EndElectionKeeps(
    count: nat, els: seq<Election>, css: seq<seq<Candidate>>, vss: seq<map<Address, VoterStatus>>, log: seq<Event>,
    k: nat, winnerId: nat, winningVoteCount: nat,
    els': seq<Election>, log': seq<Event>)
    requires StateInvariant(count, els, css, vss, log)
    requires k < |els| && els[k].isActive
    requires IsWinnerReport(css[k], winnerId, winningVoteCount)
    requires els' == els[k := els[k].(isActive := false, winnerId := winnerId)]
    requires log' == log + [ElectionEnded(k + 1, winnerId, winningVoteCount)]
    ensures StateInvariant(count, els', css, vss, log')
    ensures Extends(els, css, vss, log, els', css, vss, log')
  {
    EndElectionStep(k + 1, els[k], css[k], vss[k], log, winnerId, winningVoteCount);
    OthersKeep(count, els, css, vss, log, els', css, vss, k, ElectionEnded(k + 1, winnerId, winningVoteCount));
    Assemble(count, els, css, vss, log, els', css, vss, log', k);
  }

  class VotingContract {
    /** The deployer; the only account allowed to administer elections. */
    const admin: Address
    /** The number of elections created so far; the last allocated id. */
    var electionCount: nat
    /** `elections[k]` is the election with id `k + 1`, in creation order. */
    var elections: seq<Election>
    /** `candidates[k][j]` is candidate `j + 1` of election `k + 1`. */
    var candidates: seq<seq<Candidate>>
    /** `voters[k]` holds the voter entries of election `k + 1`. */
    var voters: seq<map<Address, VoterStatus>>
    /** Every event emitted so far, oldest first. */
    var events: seq<Event>

    ghost predicate Valid()
      reads this
    {
      StateInvariant(electionCount, elections, candidates, voters, events)
    }

    /** The state after a transaction is a successor of the state before it. */
    twostate predicate Evolves()
      reads this
    {
      Extends(old(elections), old(candidates), old(voters), old(events), elections, candidates, voters, events)
    }

    /** Deployment: the deployer becomes the admin and there are no elections. */
    constructor (deployer: Address)
      ensures Valid()
      ensures admin == deployer && electionCount == 0
      ensures elections == [] && candidates == [] && voters == [] && events == []
    {
      admin := deployer;
      electionCount := 0;
      elections, candidates, voters, events := [], [], [], [];
    }

    /** `createElection(name, startTime, endTime)`: allocates id
        `electionCount + 1` for an active election with no candidates. */
    method CreateElection(caller: Address, name: string, startTime: nat, endTime: nat) returns (r: Result<Event>)
      requires Valid()
      modifies this
      ensures Valid() && Evolves()
      ensures CreateCheck(admin, caller, startTime, endTime) == if r.Ok? then None else Some(r.error)
      ensures r.Ok? ==>
        && electionCount == old(electionCount) + 1
        && r.value == ElectionCreated(electionCount, name, startTime, endTime)
        && elections == old(elections) + [Election(electionCount, name, startTime, endTime, true, 0, 0, 0)]
        && candidates == old(candidates) + [[]]
        && voters == old(voters) + [map[]]
        && events == old(events) + [r.value]
      ensures r.Err? ==> unchanged(this)
    {
      ExtendsRefl(elections, candidates, voters, events);
      var fault := CreateCheck(admin, caller, startTime, endTime);
      if fault.Some? {
        return Err(fault.value);
      }
      ghost var els, css, vss, log := elections, candidates, voters, events;
      electionCount := electionCount + 1;
      elections := elections + [Election(electionCount, name, startTime, endTime, true, 0, 0, 0)];
      candidates := candidates + [[]];
      voters := voters + [map[]];
      r := Ok(ElectionCreated(electionCount, name, startTime, endTime));
      events := events + [r.value];
      CreateElectionKeeps(electionCount - 1, els, css, vss, log, name, startTime, endTime, elections, candidates, voters, events);
    }

    /** `addCandidate(electionId, name, party)` at time `now`: appends
        candidate `candidateCount + 1` with no votes. */
    method AddCandidate(caller: Address, electionId: nat, name: string, party: string, now: nat) returns (r: Result<Event>)
      requires Valid()
      modifies this
      ensures Valid() && Evolves()
      ensures old(AddCheck(admin, elections, caller, electionId, now)) == if r.Ok? then None else Some(r.error)
      ensures r.Ok? ==> 1 <= electionId <= old(electionCount)
      ensures r.Ok? ==>
        var k := electionId - 1;
        var n := old(elections[k].candidateCount);
        && r.value == CandidateAdded(electionId, n + 1, name, party)
        && elections == old(elections)[k := old(elections[k]).(candidateCount := n + 1)]
        && candidates == old(candidates)[k := old(candidates[k]) + [Candidate(n + 1, name, party, 0)]]
        && voters == old(voters) && electionCount == old(electionCount)
        && events == old(events) + [r.value]
      ensures r.Err? ==> unchanged(this)
    {
      ExtendsRefl(elections, candidates, voters, events);
      var fault := AddCheck(admin, elections, caller, electionId, now);
      if fault.Some? {
        return Err(fault.value);
      }
      var k := electionId - 1;
      var e := elections[k];
      ghost var els, css, log := elections, candidates, events;
      var n := e.candidateCount;
      candidates := candidates[k := candidates[k] + [Candidate(n + 1, name, party, 0)]];
      elections := elections[k := e.(candidateCount := n + 1)];
      r := Ok(CandidateAdded(electionId, n + 1, name, party));
      events := events + [r.value];
      AddCandidateKeeps(electionCount, els, css, voters, log, k, name, party, elections, candidates, events);
    }

    /** `registerVoter(electionId, voter)`: at any time, records `voter` as
        registered and not yet voted. */
    method RegisterVoter(caller: Address, electionId: nat, voter: Address) returns (r: Result<Event>)
      requires Valid()
      modifies this
      ensures Valid() && Evolves()
      ensures old(RegisterCheck(admin, elections, voters, caller, electionId, voter)) == if r.Ok? then None else Some(r.error)
      ensures r.Ok? ==> 1 <= electionId <= old(electionCount)
      ensures r.Ok? ==>
        var k := electionId - 1;
        && r.value == VoterRegistered(electionId, voter)
        && voters == old(voters)[k := old(voters[k])[voter := VoterStatus(true, false, 0)]]
        && elections == old(elections) && candidates == old(candidates) && electionCount == old(electionCount)
        && events == old(events) + [r.value]
      ensures r.Err? ==> unchanged(this)
    {
      ExtendsRefl(elections, candidates, voters, events);
      var fault := RegisterCheck(admin, elections, voters, caller, electionId, voter);
      if fault.Some? {
        return Err(fault.value);
      }
      var k := electionId - 1;
      ghost var vss, log := voters, events;
      voters := voters[k := voters[k][voter := VoterStatus(true, false, 0)]];
      r := Ok(VoterRegistered(electionId, voter));
      events := events + [r.value];
      RegisterVoterKeeps(electionCount, elections, candidates, vss, log, k, voter, voters, events);
    }

    /** `castVote(electionId, candidateId)` sent by `caller` at time `now`:
        records the caller's one vote and adds it to the candidate's tally
        and the election's total. */
    method CastVote(caller: Address, electionId: nat, candidateId: nat, now: nat) returns (r: Result<Event>)
      requires Valid()
      modifies this
      ensures Valid() && Evolves()
      ensures old(VoteCheck(elections, voters, caller, electionId, candidateId, now)) == if r.Ok? then None else Some(r.error)
      ensures r.Ok? ==> 1 <= electionId <= old(electionCount) && 1 <= candidateId <= |old(candidates[electionId - 1])|
      ensures r.Ok? ==>
        var k := electionId - 1;
        var j := candidateId - 1;
        var c := old(candidates[k][j]);
        && r.value == VoteCast(electionId, caller, candidateId)
        && candidates == old(candidates)[k := old(candidates[k])[j := c.(voteCount := c.voteCount + 1)]]
        && voters == old(voters)[k := old(voters[k])[caller := VoterStatus(true, true, candidateId)]]
        && elections == old(elections)[k := old(elections[k]).(totalVotes := old(elections[k].totalVotes) + 1)]
        && electionCount == old(electionCount)
        && events == old(events) + [r.value]
      ensures r.Err? ==> unchanged(this)
    {
      ExtendsRefl(elections, candidates, voters, events);
      var fault := VoteCheck(elections, voters, caller, electionId, candidateId, now);
      if fault.Some? {
        return Err(fault.value);
      }
      var k := electionId - 1;
      var e := elections[k];
      ghost var els, css, vss, log := elections, candidates, voters, events;
      var j := candidateId - 1;
      var c := candidates[k][j];
      candidates := candidates[k := candidates[k][j := c.(voteCount := c.voteCount + 1)]];
      voters := voters[k := voters[k][caller := VoterStatus(true, true, candidateId)]];
      elections := elections[k := e.(totalVotes := e.totalVotes + 1)];
      r := Ok(VoteCast(electionId, caller, candidateId));
      events := events + [r.value];
      CastVoteKeeps(electionCount, els, css, vss, log, k, caller, candidateId, elections, candidates, voters, events);
    }

    /** `endElection(electionId)`: closes the election and records the
        winner computed from the current tallies (0 when there is none). */
    method EndElection(caller: Address, electionId: nat) returns (r: Result<Event>)
      requires Valid()
      modifies this
      ensures Valid() && Evolves()
      ensures old(EndCheck(admin, elections, caller, electionId)) == if r.Ok? then None else Some(r.error)
      ensures r.Ok? ==> 1 <= electionId <= old(electionCount) && r.value.ElectionEnded?
      ensures r.Ok? ==>
        var k := electionId - 1;
        && r.value.electionId == electionId
        && IsWinnerReport(candidates[k], r.value.winnerId, r.value.winningVoteCount)
        && elections == old(elections)[k := old(elections[k]).(isActive := false, winnerId := r.value.winnerId)]
        && candidates == old(candidates) && voters == old(voters) && electionCount == old(electionCount)
        && events == old(events) + [r.value]
      ensures r.Err? ==> unchanged(this)
    {
      ExtendsRefl(elections, candidates, voters, events);
      var fault := EndCheck(admin, elections, caller, electionId);
      if fault.Some? {
        return Err(fault.value);
      }
      var k := electionId - 1;
      var e := elections[k];
      var winnerId, winningVoteCount := FindWinner(candidates[k]);
      ghost var els, log := elections, events;
      elections := elections[k := e.(isActive := false, winnerId := winnerId)];
      r := Ok(ElectionEnded(electionId, winnerId, winningVoteCount));
      events := events + [r.value];
      EndElectionKeeps(electionCount, els, candidates, voters, log, k, winnerId, winningVoteCount, elections, events);
    }

    /** `getCandidates(electionId)`: a copy of the candidate list. */
    method GetCandidates(electionId: nat) returns (r: Result<seq<Candidate>>)
      requires Valid()
      ensures r.Ok? <==> Allocated(elections, electionId)
      ensures r.Err? ==> r.error == InvalidElection
      ensures r.Ok? ==>
        var e := elections[electionId - 1];
        && r.value == candidates[electionId - 1]
        && |r.value| == e.candidateCount
        && SumVotes(r.value) == e.totalVotes
        && (forall j :: 0 <= j < |r.value| ==> r.value[j].id == j + 1)
        && (forall j :: 0 <= j < |r.value| ==> r.value[j].voteCount == BallotsFor(events, electionId, j + 1))
    {
      if !(1 <= electionId <= electionCount) {
        return Err(InvalidElection);
      }
      r := Ok(candidates[electionId - 1]);
    }

    /** `getVoterStatus(electionId, voter)`; an account never registered
        reads as not registered and not voted. */
    method GetVoterStatus(electionId: nat, voter: Address) returns (r: Result<VoterStatus>)
      requires Valid()
      ensures r.Ok? <==> Allocated(elections, electionId)
      ensures r.Err? ==> r.error == InvalidElection
      ensures r.Ok? ==>
        && (voter !in voters[electionId - 1] ==> r.value == Unregistered)
        && (voter in voters[electionId - 1] ==> r.value == voters[electionId - 1][voter])
        && (r.value.hasVoted ==> r.value.isRegistered)
        && (r.value.hasVoted <==> r.value.votedCandidateId != 0)
        && r.value.votedCandidateId <= elections[electionId - 1].candidateCount
        && BallotsBy(events, electionId, voter) == (if r.value.hasVoted then 1 else 0)
    {
      if !(1 <= electionId <= electionCount) {
        return Err(InvalidElection);
      }
      r := Ok(StatusOf(voters[electionId - 1], voter));
    }

    /** `getElectionDetails(electionId)`. */
    method GetElectionDetails(electionId: nat) returns (r: Result<Election>)
      requires Valid()
      ensures r.Ok? <==> Allocated(elections, electionId)
      ensures r.Err? ==> r.error == InvalidElection
      ensures r.Ok? ==>
        && r.value == elections[electionId - 1]
        && r.value.id == electionId
        && r.value.startTime < r.value.endTime
        && (r.value.isActive ==> r.value.winnerId == 0)
        && r.value.candidateCount == |candidates[electionId - 1]|
        && r.value.totalVotes == BallotsIn(events, electionId)
    {
      if !(1 <= electionId <= electionCount) {
        return Err(InvalidElection);
      }
      r := Ok(elections[electionId - 1]);
    }

    /** `getResults(electionId)`: the candidate list, the stored winner and
        the total, live while the election is open. */
    method GetResults(electionId: nat) returns (r: Result<ElectionResults>)
      requires Valid()
      ensures r.Ok? <==> Allocated(elections, electionId)
      ensures r.Err? ==> r.error == InvalidElection
      ensures r.Ok? ==>
        var e := elections[electionId - 1];
        && r.value.candidateList == candidates[electionId - 1]
        && r.value.winnerId == e.winnerId
        && r.value.totalVotes == e.totalVotes
        && r.value.totalVotes == SumVotes(r.value.candidateList)
        && (e.isActive ==> r.value.winnerId == 0)
        && r.value.winnerId <= |r.value.candidateList|
        && (r.value.winnerId != 0 ==> forall j :: 0 <= j < |r.value.candidateList| ==>
              r.value.candidateList[j].voteCount <= r.value.candidateList[r.value.winnerId - 1].voteCount)
    {
      if !(1 <= electionId <= electionCount) {
        return Err(InvalidElection);
      }
      var e := elections[electionId - 1];
      r := Ok(ElectionResults(candidates[electionId - 1], e.winnerId, e.totalVotes));
    }

    /** `getAllElections()`: every election, in creation order. */
    method GetAllElections() returns (r: seq<Election>)
      requires Valid()
      ensures r == elections
      ensures |r| == electionCount
      ensures forall k :: 0 <= k < |r| ==> r[k].id == k + 1
    {
      r := elections;
    }
  }
}
