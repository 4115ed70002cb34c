/** The contract's documented behaviour as the cases of
    test/VotingContract.test.js assert it: one scenario per case, except
    that `Deployment` covers both deployment cases. Each case computes its
    times from the host clock, `Math.floor(Date.now() / 1000)`; the
    parameter `t0` is that value, and each scenario assumes the block time
    equals it when the case begins, as the case evidently intends. Time
    advances only where the case advances it. The test accounts are
    parameters with the distinctness the test signers have. */
module VotingScenarios {
  import opened ElectionTypes
  import opened Tally
  import opened Voting

  const Day := 86400

  /** Deployment: the deployer is the admin and no election exists. */
  method Deployment(deployer: Address) returns (admin: Address, count: nat)
    ensures admin == deployer && count == 0
  {
    var c := new VotingContract(deployer);
    admin, count := c.admin, c.electionCount;
  }

  /** The admin's first election gets id 1 and is announced with its window. */
  method AdminCreatesElection(deployer: Address, t0: nat) returns (r: Result<Event>, count: nat)
    ensures r == Ok(ElectionCreated(1, "Presidential Election", t0 + 3600, t0 + 3600 + Day))
    ensures count == 1
  {
    var c := new VotingContract(deployer);
    r := c.CreateElection(deployer, "Presidential Election", t0 + 3600, t0 + 3600 + Day);
    count := c.electionCount;
  }

  method NonAdminCreatesElection(deployer: Address, voter1: Address, t0: nat) returns (r: Result<Event>)
    requires voter1 != deployer
    ensures r == Err(OnlyAdmin)
  {
    var c := new VotingContract(deployer);
    r := c.CreateElection(voter1, "Test Election", t0 + 3600, t0 + 3600 + Day);
  }

  method InvalidTimeRange(deployer: Address, t0: nat) returns (r: Result<Event>)
    ensures r == Err(StartNotBeforeEnd)
  {
    var c := new VotingContract(deployer);
    r := c.CreateElection(deployer, "Invalid Election", t0 + 3600, t0 + 3600 - 1000);
  }

  /** The fixture state: `c` is consistent and holds the one election
      "Test Election" from `start` to `start + Day`, still open, with
      `total` votes, candidates whose counts are `counts`, and voter
      mapping `roll`. */
  ghost predicate OneElection(c: VotingContract, start: nat, total: nat, counts: seq<nat>, roll: map<Address, VoterStatus>)
    reads c
  {
    && c.Valid()
    && c.elections == [Election(1, "Test Election", start, start + Day, true, 0, total, |counts|)]
    && |c.candidates| == 1 && |c.candidates[0]| == |counts|
    && (forall j :: 0 <= j < |counts| ==> c.candidates[0][j].voteCount == counts[j])
    && c.voters == [roll]
  }

  /** A contract with election 1, "Test Election", starting at `start`. */
  method WithElection(deployer: Address, start: nat) returns (c: VotingContract)
    ensures fresh(c) && c.admin == deployer && OneElection(c, start, 0, [], map[])
  {
    c := new VotingContract(deployer);
    var r := c.CreateElection(deployer, "Test Election", start, start + Day);
  }

  /** The admin adds a candidate before the start. */
  method AddStep(c: VotingContract, ghost start: nat, ghost total: nat, ghost counts: seq<nat>, ghost roll: map<Address, VoterStatus>,
                 name: string, party: string, now: nat)
    requires OneElection(c, start, total, counts, roll) && now < start
    modifies c
    ensures OneElection(c, start, total, counts + [0], roll)
  {
    var r := c.AddCandidate(c.admin, 1, name, party, now);
    assert r.Ok?;
  }

  /** The admin registers an account not yet registered. */
  method RegisterStep(c: VotingContract, ghost start: nat, ghost total: nat, ghost counts: seq<nat>, ghost roll: map<Address, VoterStatus>,
                      voter: Address)
    requires OneElection(c, start, total, counts, roll) && !StatusOf(roll, voter).isRegistered
    modifies c
    ensures OneElection(c, start, total, counts, roll[voter := VoterStatus(true, false, 0)])
  {
    var r := c.RegisterVoter(c.admin, 1, voter);
    assert r.Ok?;
  }

  /** A registered voter who has not voted votes strictly inside the window. */
  method VoteStep(c: VotingContract, ghost start: nat, ghost total: nat, ghost counts: seq<nat>, ghost roll: map<Address, VoterStatus>,
                  voter: Address, candidateId: nat, now: nat, ghost counts': seq<nat>)
    requires OneElection(c, start, total, counts, roll)
    requires StatusOf(roll, voter).isRegistered && !StatusOf(roll, voter).hasVoted
    requires 1 <= candidateId <= |counts| && start < now < start + Day
    requires counts' == counts[candidateId - 1 := counts[candidateId - 1] + 1]
    modifies c
    ensures OneElection(c, start, total + 1, counts', roll[voter := VoterStatus(true, true, candidateId)])
  {
    var r := c.CastVote(voter, 1, candidateId, now);
    assert r.Ok?;
  }

  /** Before the start the admin adds candidate 1, and the list shows it. */
  method AdminAddsCandidate(deployer: Address, t0: nat) returns (r: Result<Event>, cs: Result<seq<Candidate>>)
    ensures r == Ok(CandidateAdded(1, 1, "Alice Johnson", "Democratic Party"))
    ensures cs.Ok? && |cs.value| == 1 && cs.value[0].name == "Alice Johnson"
  {
    var c := WithElection(deployer, t0 + 3600);
    r := c.AddCandidate(deployer, 1, "Alice Johnson", "Democratic Party", t0);
    cs := c.GetCandidates(1);
  }

  method AddCandidateAfterStart(deployer: Address, t0: nat) returns (r: Result<Event>)
    ensures r == Err(CandidatesAfterStart)
  {
    var c := WithElection(deployer, t0 + 3600);
    r := c.AddCandidate(deployer, 1, "Bob Smith", "Republican Party", t0 + 3600 + 1);
  }

  method NonAdminAddsCandidate(deployer: Address, voter1: Address, t0: nat) returns (r: Result<Event>)
    requires voter1 != deployer
    ensures r == Err(OnlyAdmin)
  {
    var c := WithElection(deployer, t0 + 3600);
    r := c.AddCandidate(voter1, 1, "Charlie Brown", "Independent", t0);
  }

  /** A registered voter reads as registered and not yet voted. */
  method AdminRegistersVoter(deployer: Address, voter1: Address, t0: nat) returns (r: Result<Event>, s: Result<VoterStatus>)
    ensures r == Ok(VoterRegistered(1, voter1))
    ensures s.Ok? && s.value.isRegistered && !s.value.hasVoted
  {
    var c := WithElection(deployer, t0 + 3600);
    r := c.RegisterVoter(deployer, 1, voter1);
    s := c.GetVoterStatus(1, voter1);
  }

  method RegisterTwice(deployer: Address, voter1: Address, t0: nat) returns (r: Result<Event>)
    ensures r == Err(AlreadyRegistered)
  {
    var c := WithElection(deployer, t0 + 3600);
    var first := c.RegisterVoter(deployer, 1, voter1);
    r := c.RegisterVoter(deployer, 1, voter1);
  }

  method NonAdminRegistersVoter(deployer: Address, voter1: Address, voter2: Address, t0: nat) returns (r: Result<Event>)
    requires voter1 != deployer
    ensures r == Err(OnlyAdmin)
  {
    var c := WithElection(deployer, t0 + 3600);
    r := c.RegisterVoter(voter1, 1, voter2);
  }

  /** The voting fixture: election 1 from `t0 + 100` with Alice and Bob as
      candidates 1 and 2, and `voter1`, `voter2` registered. */
  method WithVoters(deployer: Address, voter1: Address, voter2: Address, t0: nat) returns (c: VotingContract)
    requires voter1 != voter2
    ensures fresh(c) && c.admin == deployer
    ensures OneElection(c, t0 + 100, 0, [0, 0], map[voter1 := VoterStatus(true, false, 0), voter2 := VoterStatus(true, false, 0)])
  {
    c := WithElection(deployer, t0 + 100);
    AddStep(c, t0 + 100, 0, [], map[], "Alice Johnson", "Democratic Party", t0);
    AddStep(c, t0 + 100, 0, [0], map[], "Bob Smith", "Republican Party", t0);
    RegisterStep(c, t0 + 100, 0, [0, 0], map[], voter1);
    RegisterStep(c, t0 + 100, 0, [0, 0], map[voter1 := VoterStatus(true, false, 0)], voter2);
  }

  /** The Voting fixture as the suite runs it after the case that advances
      the chain to `startTime + 1` (test lines 90-97). That case's host
      clock read `t0`, so the chain stands at `t0 + 3601` or later; nothing
      resets it before the next case, whose host clock reads `t1`. When
      fewer than 3501 seconds have passed on the host, the fixture's start
      `t1 + 100` already lies in the chain's past and adding the first
      candidate reverts. */
  method SharedClockVotingFixture(deployer: Address, t0: nat, t1: nat) returns (r: Result<Event>)
    requires t1 <= t0 + 3501
    ensures r == Err(CandidatesAfterStart)
  {
    var c := WithElection(deployer, t1 + 100);
    r := c.AddCandidate(deployer, 1, "Alice Johnson", "Democratic Party", t0 + 3601);
  }

  /** A registered voter's ballot is announced, recorded and counted. */
  method RegisteredVoterVotes(deployer: Address, voter1: Address, voter2: Address, t0: nat)
    returns (r: Result<Event>, s: Result<VoterStatus>, cs: Result<seq<Candidate>>)
    requires voter1 != voter2
    ensures r == Ok(VoteCast(1, voter1, 1))
    ensures s.Ok? && s.value.hasVoted && s.value.votedCandidateId == 1
    ensures cs.Ok? && |cs.value| == 2 && cs.value[0].voteCount == 1
  {
    var c := WithVoters(deployer, voter1, voter2, t0);
    r := c.CastVote(voter1, 1, 1, t0 + 100 + 1);
    s := c.GetVoterStatus(1, voter1);
    cs := c.GetCandidates(1);
  }

  method DoubleVote(deployer: Address, voter1: Address, voter2: Address, t0: nat) returns (r: Result<Event>)
    requires voter1 != voter2
    ensures r == Err(AlreadyVoted)
  {
    var c := WithVoters(deployer, voter1, voter2, t0);
    var yes := VoterStatus(true, false, 0);
    VoteStep(c, t0 + 100, 0, [0, 0], map[voter1 := yes, voter2 := yes], voter1, 1, t0 + 100 + 1, [1, 0]);
    r := c.CastVote(voter1, 1, 2, t0 + 100 + 1);
  }

  method UnregisteredVoterVotes(deployer: Address, voter1: Address, voter2: Address, voter3: Address, t0: nat)
    returns (r: Result<Event>)
    requires voter1 != voter2 && voter3 != voter1 && voter3 != voter2
    ensures r == Err(NotRegistered)
  {
    var c := WithVoters(deployer, voter1, voter2, t0);
    r := c.CastVote(voter3, 1, 1, t0 + 100 + 1);
  }

  method VoteBeforeStart(deployer: Address, voter1: Address, voter2: Address, t0: nat) returns (r: Result<Event>)
    requires voter1 != voter2
    ensures r == Err(NotStarted)
  {
    var c := WithVoters(deployer, voter1, voter2, t0);
    r := c.CastVote(voter1, 1, 1, t0);
  }

  method VoteAfterEnd(deployer: Address, voter1: Address, voter2: Address, t0: nat) returns (r: Result<Event>)
    requires voter1 != voter2
    ensures r == Err(Ended)
  {
    var c := WithVoters(deployer, voter1, voter2, t0);
    r := c.CastVote(voter1, 1, 1, t0 + 100 + Day + 1);
  }

  method VoteForInvalidCandidate(deployer: Address, voter1: Address, voter2: Address, t0: nat) returns (r: Result<Event>)
    requires voter1 != voter2
    ensures r == Err(InvalidCandidate)
  {
    var c := WithVoters(deployer, voter1, voter2, t0);
    r := c.CastVote(voter1, 1, 999, t0 + 100 + 1);
  }

  /** Alice, Bob and Charlie as candidates 1 to 3, and three registered voters. */
  method WithThreeVoters(deployer: Address, voter1: Address, voter2: Address, voter3: Address, t0: nat)
    returns (c: VotingContract)
    requires voter1 != voter2 && voter1 != voter3 && voter2 != voter3
    ensures fresh(c) && c.admin == deployer
    ensures OneElection(c, t0 + 100, 0, [0, 0, 0], map[
      voter1 := VoterStatus(true, false, 0), voter2 := VoterStatus(true, false, 0), voter3 := VoterStatus(true, false, 0)])
  {
    var yes := VoterStatus(true, false, 0);
    c := WithVoters(deployer, voter1, voter2, t0);
    AddStep(c, t0 + 100, 0, [0, 0], map[voter1 := yes, voter2 := yes], "Charlie Brown", "Independent", t0);
    assert [0, 0] + [0] == [0, 0, 0];
    RegisterStep(c, t0 + 100, 0, [0, 0, 0], map[voter1 := yes, voter2 := yes], voter3);
  }

  /** `voter1` and `voter2` have voted for Alice. */
  method WithAliceAhead(deployer: Address, voter1: Address, voter2: Address, voter3: Address, t0: nat)
    returns (c: VotingContract)
    requires voter1 != voter2 && voter1 != voter3 && voter2 != voter3
    ensures fresh(c) && c.admin == deployer
    ensures OneElection(c, t0 + 100, 2, [2, 0, 0], map[
      voter1 := VoterStatus(true, false, 0), voter2 := VoterStatus(true, false, 0), voter3 := VoterStatus(true, false, 0)]
      [voter1 := VoterStatus(true, true, 1)][voter2 := VoterStatus(true, true, 1)])
  {
    var start := t0 + 100;
    c := WithThreeVoters(deployer, voter1, voter2, voter3, t0);
    var yes := VoterStatus(true, false, 0);
    ghost var roll := map[voter1 := yes, voter2 := yes, voter3 := yes];
    VoteStep(c, start, 0, [0, 0, 0], roll, voter1, 1, start + 1, [1, 0, 0]);
    roll := roll[voter1 := VoterStatus(true, true, 1)];
    VoteStep(c, start, 1, [1, 0, 0], roll, voter2, 1, start + 1, [2, 0, 0]);
  }

  /** The results fixture: `voter1` and `voter2` vote for Alice and
      `voter3` for Bob. */
  method WithBallots(deployer: Address, voter1: Address, voter2: Address, voter3: Address, t0: nat)
    returns (c: VotingContract)
    requires voter1 != voter2 && voter1 != voter3 && voter2 != voter3
    ensures fresh(c) && c.admin == deployer
    ensures |c.voters| == 1 && OneElection(c, t0 + 100, 3, [2, 1, 0], c.voters[0])
  {
    c := WithAliceAhead(deployer, voter1, voter2, voter3, t0);
    var yes := VoterStatus(true, false, 0);
    ghost var roll := map[voter1 := yes, voter2 := yes, voter3 := yes]
      [voter1 := VoterStatus(true, true, 1)][voter2 := VoterStatus(true, true, 1)];
    VoteStep(c, t0 + 100, 2, [2, 0, 0], roll, voter3, 2, t0 + 100 + 1, [2, 1, 0]);
  }

  /** With counts 2, 1 and 0 every winner report names candidate 1 with 2 votes. */
  lemma ClearLeaderWins(cs: seq<Candidate>, winnerId: nat, winningVoteCount: nat)
    requires |cs| == 3 && cs[0].voteCount == 2 && cs[1].voteCount == 1 && cs[2].voteCount == 0
    requires IsWinnerReport(cs, winnerId, winningVoteCount)
    ensures winnerId == 1 && winningVoteCount == 2
  {
    assert IsUniqueTop(cs, 0);
  }

  method VoteCounts(deployer: Address, voter1: Address, voter2: Address, voter3: Address, t0: nat)
    returns (cs: Result<seq<Candidate>>)
    requires voter1 != voter2 && voter1 != voter3 && voter2 != voter3
    ensures cs.Ok? && |cs.value| == 3
    ensures cs.value[0].voteCount == 2 && cs.value[1].voteCount == 1 && cs.value[2].voteCount == 0
  {
    var c := WithBallots(deployer, voter1, voter2, voter3, t0);
    cs := c.GetCandidates(1);
  }

  /** The admin ends the results fixture's election. */
  method EndStep(c: VotingContract, ghost start: nat, ghost roll: map<Address, VoterStatus>) returns (r: Result<Event>)
    requires OneElection(c, start, 3, [2, 1, 0], roll)
    modifies c
    ensures r == Ok(ElectionEnded(1, 1, 2))
    ensures c.Valid() && |c.elections| == 1 && |c.candidates| == 1 && |c.candidates[0]| == 3
    ensures c.elections[0].winnerId == 1 && !c.elections[0].isActive && c.elections[0].totalVotes == 3
  {
    r := c.EndElection(c.admin, 1);
    ClearLeaderWins(c.candidates[0], r.value.winnerId, r.value.winningVoteCount);
  }

  /** Ending the election names Alice, the clear leader, with her 2 votes. */
  method WinnerOnEnd(deployer: Address, voter1: Address, voter2: Address, voter3: Address, t0: nat)
    returns (r: Result<Event>, e: Result<Election>)
    requires voter1 != voter2 && voter1 != voter3 && voter2 != voter3
    ensures r == Ok(ElectionEnded(1, 1, 2))
    ensures e.Ok? && e.value.winnerId == 1 && !e.value.isActive
  {
    var c := WithBallots(deployer, voter1, voter2, voter3, t0);
    r := EndStep(c, t0 + 100, c.voters[0]);
    e := c.GetElectionDetails(1);
  }

  method CompleteResults(deployer: Address, voter1: Address, voter2: Address, voter3: Address, t0: nat)
    returns (res: Result<ElectionResults>)
    requires voter1 != voter2 && voter1 != voter3 && voter2 != voter3
    ensures res.Ok? && res.value.winnerId == 1 && res.value.totalVotes == 3 && |res.value.candidateList| == 3
  {
    var c := WithBallots(deployer, voter1, voter2, voter3, t0);
    var r := EndStep(c, t0 + 100, c.voters[0]);
    res := c.GetResults(1);
  }

  /** Every election is listed, in creation order. */
  method AllElections(deployer: Address, t0: nat) returns (all: seq<Election>)
    ensures |all| == 2 && all[0].name == "Election 1" && all[1].name == "Election 2"
  {
    var c := new VotingContract(deployer);
    var r := c.CreateElection(deployer, "Election 1", t0 + 3600, t0 + 3600 + Day);
    r := c.CreateElection(deployer, "Election 2", t0 + 7200, t0 + 7200 + Day);
    all := c.GetAllElections();
  }
}
