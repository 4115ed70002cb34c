# BlockVote election contract: a Dafny model

BlockVote runs elections on an Ethereum contract, `VotingContract`, with a
React frontend. This project models two parts of it and proves properties of
both.

- **The contract's election state machine.** One admin, set at deployment,
  creates elections with a voting window and adds candidates before the
  window opens. The admin also registers voters. A registered voter casts one
  vote during the window. The admin ends the election, and the contract
  records the candidate with the most votes as the winner. Every transaction
  either emits one event or reverts with a reason and changes nothing.
- **`formatAddress` in the navigation bar.** It shortens a wallet address to
  the first six characters, `...`, and the characters from index 38 on.

The Solidity source of `VotingContract` is not part of this model. The
contract's behaviour is taken from the test suite
`test/VotingContract.test.js`. Its cases fix these points:
- admin-only operations;
- id allocation;
- the candidate and voting time rules;
- double-vote prevention;
- the tally and the winner;
- the exact event arguments and revert strings.

Files:

- `election_types.dfy` (`ElectionTypes`): addresses, the stored records, the
  events and the revert reasons.
- `rules.dfy` (`Rules`): each transaction's revert guards as a function
  (`...Check`) and, beside it, a declarative list of every failing condition
  (`...Faults`). Some cases are fixed by the tests and some are not.
  `...Faults(..., undecided)` with `undecided` false holds the failures
  every reading of the tests rejects, plus the model's own
  `InvalidElection`; with `undecided` true it adds the cases the tests
  leave open that the model lists. Some cases the tests never probe are
  decided without an undecided term; "## Left out" names them. Each check is
  proved to revert whenever a failure of the first kind is present, to
  succeed whenever no failure of the second kind is present, and to report
  only a failure that is present.
- `tally.dfy` (`Tally`): vote sums, the ballots counted from the event log,
  the winner computation `FindWinner`, and `MaxVotes`, a reference
  definition of the winning count.
- `voting.dfy` (`Voting`): the class `VotingContract`, whose fields the
  transactions reassign, and the contract invariant. The invariant says:
  - every total equals the sum of the candidates' counts and the number of
    `VoteCast` events for that election;
  - every candidate's count equals its `VoteCast` events;
  - a voter has voted exactly when the log holds one ballot by that voter,
    and otherwise none;
  - ids are 1-based and allocated in order;
  - a recorded winner has the most votes.

  It also defines `Extends`, what every transaction preserves of the state
  before it:
  - no election, candidate or voter entry is lost;
  - no count goes down;
  - a closed election stays closed with the same winner;
  - a cast vote never changes;
  - the event log only grows.
- `navbar.dfy` (`Navbar`): JavaScript `substring` and `formatAddress`.
- `scenarios.dfy` (`VotingScenarios`): one method per test case, except that
  `Deployment` covers both deployment cases (test lines 25-31). Each drives
  a fresh contract through the case's calls and proves the results the case
  asserts. The host clock reading `Math.floor(Date.now() / 1000)` that the
  case starts from is the parameter `t0`, and the block time is taken to
  equal it when the case begins. The distinct test accounts are parameters
  too.

Transactions take the sender (`caller`) and, where the contract reads the
clock, the block time (`now`) as parameters. Events are returned and appended
to the field `events`.

## Model

| member | source | states |
|---|---|---|
| Voting.VotingContract.constructor | test/VotingContract.test.js:25-31 | the deployer becomes the admin, `electionCount` is 0, there are no elections and the event log is empty; the invariant holds |
| Voting.VotingContract.CreateElection | test/VotingContract.test.js:35-64 | reverts exactly when `CreateCheck` reports a reason, with that reason, and then changes nothing; on success `electionCount` goes up by one, the new active election has id `electionCount` with no candidates and no voters, `ElectionCreated(id, name, start, end)` is emitted and appended; the invariant and `Extends` hold |
| Rules.CreateCheck | test/VotingContract.test.js:48-64 | a non-admin caller reverts `OnlyAdmin`; an end before the start reverts `StartNotBeforeEnd`; an admin call with start before end succeeds; any reported reason is one of the failing conditions |
| Voting.VotingContract.AddCandidate | test/VotingContract.test.js:78-103 | reverts exactly as `AddCheck` says, changing nothing; on success appends candidate `candidateCount + 1` with 0 votes to that election only, raises its `candidateCount`, emits `CandidateAdded(electionId, id, name, party)`; invariant and `Extends` hold |
| Rules.AddCheck | test/VotingContract.test.js:90-103 | non-admin reverts `OnlyAdmin`; a time after the start reverts `CandidatesAfterStart`; an admin call before the start for an existing, still active election succeeds; an ended election is undecided and any reported reason is a present failure |
| Voting.VotingContract.RegisterVoter | test/VotingContract.test.js:116-138 | reverts exactly as `RegisterCheck` says, changing nothing; on success the voter's entry becomes registered and not voted, nothing else changes, `VoterRegistered(electionId, voter)` is emitted; invariant and `Extends` hold |
| Rules.RegisterCheck | test/VotingContract.test.js:126-138 | a non-admin caller reverts `OnlyAdmin` and a second registration reverts `AlreadyRegistered`; the admin registering a new voter in an existing, still active election succeeds; an ended election is undecided; any reported reason is a present failure |
| Voting.VotingContract.CastVote | test/VotingContract.test.js:160-184 | reverts exactly as `VoteCheck` says, changing nothing; on success marks the caller as having voted for `candidateId`, adds one to that candidate's count and to the election's total and changes no other count or voter, emits `VoteCast(electionId, caller, candidateId)`; invariant and `Extends` hold |
| Rules.VoteCheck | test/VotingContract.test.js:176-215 | an unregistered caller, a time before the start, a time after the end, a caller who has already voted, or a candidate id outside `1..candidateCount` (such as 999) each make the vote revert; a registered first-time voter in an open election strictly inside the window with an existing candidate succeeds; the reason reported is one of the present failures |
| Voting.VotingContract.EndElection | test/VotingContract.test.js:254-262 | reverts exactly as `EndCheck` says, changing nothing; on success the election is closed with the reported winner, and the emitted `ElectionEnded(electionId, winnerId, winningVoteCount)` is a winner report (`IsWinnerReport`) for its candidates; nothing else changes; invariant and `Extends` hold |
| Rules.EndCheck | test/VotingContract.test.js:254-257 | the admin ending an open existing election succeeds, also while voting is still open; any reported reason is a present failure |
| Tally.FindWinner | test/VotingContract.test.js:254-262 | the reported count is the largest count (0 without candidates) and is attained; a reported winner holds it; a candidate strictly ahead of all others with at least one vote is the winner |
| Tally.WinningCountIsMax | test/VotingContract.test.js:254-257 | every winner report has the same winning count, `MaxVotes` of the candidates, whatever the tie-break |
| Tally.MaxVotesIsMax | test/VotingContract.test.js:254-257 | `MaxVotes` bounds every count and is attained by some candidate of a non-empty list |
| Tally.CountAtMostSum | test/VotingContract.test.js:264-271 | no candidate has more votes than the sum of all counts |
| Tally.WinnerAtMostTotal | test/VotingContract.test.js:264-271 | the winning count never exceeds the total number of votes |
| Tally.SumVotesAppend | test/VotingContract.test.js:78-88 | adding a candidate adds its count to the sum |
| Tally.SumVotesUpdate | test/VotingContract.test.js:160-174 | changing one candidate's count changes the sum by exactly the difference |
| Tally.BallotsAppend | test/VotingContract.test.js:160-166 | one more event changes the per-election, per-candidate and per-voter ballot counts by that event alone |
| Tally.NoBallotsIn | test/VotingContract.test.js:35-46 | an election without ballots in the log has none for any candidate and none by any voter |
| Voting.AddCandidateStep | test/VotingContract.test.js:78-88 | appending a candidate with 0 votes keeps the election's invariant and what it must preserve |
| Voting.AddCandidateTally | test/VotingContract.test.js:78-88 | appending a candidate with 0 votes keeps every tally equal to its ballots and the total equal to the sum |
| Voting.RegisterVoterStep | test/VotingContract.test.js:116-124 | registering an unregistered voter keeps the election's invariant and what it must preserve |
| Voting.CastVoteTally | test/VotingContract.test.js:160-174 | a ballot adds one to its candidate's count and to the total, keeping every tally equal to the ballots in the log |
| Voting.CastVoteRoll | test/VotingContract.test.js:160-184 | a first ballot marks only its voter as voted and gives that voter exactly one ballot in the log |
| Voting.CastVoteStep | test/VotingContract.test.js:160-184 | a first vote for an existing candidate keeps the election's invariant and what it must preserve |
| Voting.EndElectionStep | test/VotingContract.test.js:254-262 | closing with a winner report keeps the election's invariant, with the winner a top candidate |
| Voting.InvariantUnderOtherEvent | test/VotingContract.test.js:35-46 | an event that is not a ballot of an election keeps that election's invariant |
| Voting.OthersKeep | test/VotingContract.test.js:141-158 | the elections a transaction does not touch stay consistent and unchanged |
| Voting.Assemble | test/VotingContract.test.js:141-158 | a state whose touched election and untouched elections are consistent and persist satisfies the whole-contract invariant and `Extends` |
| Voting.ExtendsRefl | test/VotingContract.test.js:48-55 | a reverted transaction, which leaves the state as it was, satisfies `Extends` |
| Voting.CreateElectionKeeps | test/VotingContract.test.js:35-46 | creating election `count + 1` keeps the contract invariant and `Extends` |
| Voting.AddCandidateKeeps | test/VotingContract.test.js:78-88 | adding a candidate keeps the contract invariant and `Extends` |
| Voting.RegisterVoterKeeps | test/VotingContract.test.js:116-124 | registering a voter keeps the contract invariant and `Extends` |
| Voting.CastVoteKeeps | test/VotingContract.test.js:160-174 | casting a vote keeps the contract invariant and `Extends` |
| Voting.EndElectionKeeps | test/VotingContract.test.js:254-262 | ending an election keeps the contract invariant and `Extends` |
| Voting.VotingContract.GetCandidates | test/VotingContract.test.js:85-87 | the candidate list of an existing election, `candidateCount` long, ids 1, 2, ..., counts equal to the ballots in the log and summing to the total; an unknown id reverts |
| Voting.VotingContract.GetVoterStatus | test/VotingContract.test.js:121-123 | the stored entry, or not-registered and not-voted for an account never registered; a voter who has voted is registered, has a candidate id in range and exactly one ballot in the log |
| Voting.VotingContract.GetElectionDetails | test/VotingContract.test.js:259-261 | the stored header, with its own id, start before end, no winner while active and a total equal to the ballots in the log |
| Voting.VotingContract.GetResults | test/VotingContract.test.js:264-271 | candidate list, stored winner and total; the total is the sum of the counts; no winner while active; a recorded winner has the most votes |
| Voting.VotingContract.GetAllElections | test/VotingContract.test.js:275-288 | every election in creation order: `electionCount` entries, entry `k` with id `k + 1` |
| VotingScenarios.Deployment | test/VotingContract.test.js:25-31 | a fresh contract reports the deployer as admin and 0 elections |
| VotingScenarios.AdminCreatesElection | test/VotingContract.test.js:35-46 | the first election emits `ElectionCreated(1, "Presidential Election", start, end)` and `electionCount` becomes 1 |
| VotingScenarios.NonAdminCreatesElection | test/VotingContract.test.js:48-55 | another account's `createElection` reverts `OnlyAdmin` |
| VotingScenarios.InvalidTimeRange | test/VotingContract.test.js:57-64 | an end 1000 seconds before the start reverts `StartNotBeforeEnd` |
| VotingScenarios.AdminAddsCandidate | test/VotingContract.test.js:78-88 | emits `CandidateAdded(1, 1, "Alice Johnson", "Democratic Party")` and the list then holds one candidate named "Alice Johnson" |
| VotingScenarios.AddCandidateAfterStart | test/VotingContract.test.js:90-97 | adding at `startTime + 1` reverts `CandidatesAfterStart` |
| VotingScenarios.NonAdminAddsCandidate | test/VotingContract.test.js:99-103 | another account's `addCandidate` reverts `OnlyAdmin` |
| VotingScenarios.AdminRegistersVoter | test/VotingContract.test.js:116-124 | emits `VoterRegistered(1, voter1)`; the status reads registered and not voted |
| VotingScenarios.RegisterTwice | test/VotingContract.test.js:126-132 | a second registration reverts `AlreadyRegistered` |
| VotingScenarios.NonAdminRegistersVoter | test/VotingContract.test.js:134-138 | another account's `registerVoter` reverts `OnlyAdmin` |
| VotingScenarios.WithElection | test/VotingContract.test.js:71-76 | the fixture of the candidate and registration cases (also lines 109-114, with start `t0 + 3600`): a fresh contract of the deployer with the one open "Test Election" from `start` to `start + 86400`, no candidates, no voters, no votes |
| VotingScenarios.AddStep | test/VotingContract.test.js:151-153 | the admin adding a candidate before the start appends one candidate with 0 votes and changes nothing else of the election |
| VotingScenarios.RegisterStep | test/VotingContract.test.js:155-157 | the admin registering an unregistered account marks exactly that account registered and not voted |
| VotingScenarios.VoteStep | test/VotingContract.test.js:241-244 | a registered first-time voter voting strictly inside the window adds one to that candidate's count and to the total and marks only that voter as voted for it |
| VotingScenarios.WithVoters | test/VotingContract.test.js:145-158 | the voting fixture: one open election with two candidates at 0 votes and two registered voters |
| VotingScenarios.SharedClockVotingFixture | test/VotingContract.test.js:145-152 | on a chain clock left at `t0 + 3601` by the case at lines 90-97, a later Voting fixture whose host clock reads at most `t0 + 3501` has its start in the chain's past, and its first `addCandidate` reverts `CandidatesAfterStart` |
| VotingScenarios.RegisteredVoterVotes | test/VotingContract.test.js:160-174 | at `startTime + 1` emits `VoteCast(1, voter1, 1)`; the voter then reads voted for 1 and candidate 1 has 1 vote |
| VotingScenarios.DoubleVote | test/VotingContract.test.js:176-184 | a second vote by the same voter reverts `AlreadyVoted` |
| VotingScenarios.UnregisteredVoterVotes | test/VotingContract.test.js:186-192 | a vote by an unregistered account reverts `NotRegistered` |
| VotingScenarios.VoteBeforeStart | test/VotingContract.test.js:194-198 | a vote before the start reverts `NotStarted` |
| VotingScenarios.VoteAfterEnd | test/VotingContract.test.js:200-207 | a vote at `endTime + 1` reverts `Ended` |
| VotingScenarios.VoteForInvalidCandidate | test/VotingContract.test.js:209-215 | a vote for candidate 999 reverts `InvalidCandidate` |
| VotingScenarios.WithThreeVoters | test/VotingContract.test.js:224-236 | the results fixture before it votes: three candidates at 0 votes and three registered voters who have not voted |
| VotingScenarios.WithAliceAhead | test/VotingContract.test.js:238-243 | after voter1 and voter2 vote for candidate 1 at `startTime + 1`: counts 2, 0, 0, a total of 2, both marked as voted for 1 |
| VotingScenarios.WithBallots | test/VotingContract.test.js:222-245 | the results fixture: three candidates with counts 2, 1, 0 and a total of 3 |
| VotingScenarios.VoteCounts | test/VotingContract.test.js:247-252 | `getCandidates` shows counts 2, 1 and 0 |
| VotingScenarios.ClearLeaderWins | test/VotingContract.test.js:254-257 | with counts 2, 1, 0 every winner report names candidate 1 with 2 votes |
| VotingScenarios.EndStep | test/VotingContract.test.js:254-262 | ending the results fixture's election emits `ElectionEnded(1, 1, 2)` and leaves it closed with winner 1 |
| VotingScenarios.WinnerOnEnd | test/VotingContract.test.js:254-262 | `endElection` emits `ElectionEnded(1, 1, 2)`; the details then show winner 1 and not active |
| VotingScenarios.CompleteResults | test/VotingContract.test.js:264-271 | after ending, `getResults` shows winner 1, total 3 and three candidates |
| VotingScenarios.AllElections | test/VotingContract.test.js:275-288 | two elections are listed in creation order, "Election 1" then "Election 2" |
| Navbar.Substring | frontend/src/components/Navbar.jsx:10 | JavaScript `substring`: with both indexes clamped to `[0, length]`, the result is as long as the gap between them and holds the characters of the string from the smaller one on |
| Navbar.SubstringSwap | frontend/src/components/Navbar.jsx:10 | swapping the two indexes gives the same string |
| Navbar.SubstringClamps | frontend/src/components/Navbar.jsx:10 | an index below 0 acts as 0 and one past the length as the length |
| Navbar.FormatAddress | frontend/src/components/Navbar.jsx:8-11 | the empty address gives the empty string; otherwise the result is `min(6, n) + 3 + max(0, n - 38)` long and consists of the first `min(6, n)` characters, `...`, and the characters from index `min(38, n)` on |
| Navbar.FormatFullAddress | frontend/src/components/Navbar.jsx:10 | a 42-character address gives 13 characters: its first six, `...` and its last four |
| Navbar.FormatShortAddress | frontend/src/components/Navbar.jsx:10 | an address of at most 38 characters gives its first `min(6, n)` characters followed by `...` and nothing more |

## Left out

- The Solidity source of `VotingContract` is not part of this model. The
  guards come from the test suite, which never calls an operation on an
  election id that was never allocated, and never adds a candidate to,
  registers a voter in, votes in or ends a closed election.
- InvalidElection: the model's own revert for an election id that was never
  allocated. The contract's reaction to such an id is not shown.
- ElectionNotActive: the model's own revert for adding a candidate to,
  registering a voter in, voting in, or ending a closed election.
  `Faults(..., true)` lists all four cases as undecided.
- Tally.FindWinner: the tie-break is not part of the contract. `IsWinnerReport`
  admits any top candidate, or no winner, when two top counts are equal. The
  loop keeps the first of the tied candidates. A reading in which a tie gives
  no winner also satisfies the contract; the tests do not decide between the
  two.
- Voting.VotingContract.EndElection: the same open tie-break, stated through
  `IsWinnerReport`.
- Rules.VoteCheck: voting exactly at `startTime` or at `endTime` is openly
  undecided. The tests probe `startTime + 1` and `endTime + 1`. `VoteCheck`
  accepts both edges.
- Rules.VoteCheck: which reason is reported when several faults are present
  at once is not promised. Only "one of the present faults" is.
- Rules.EndCheck: whether a non-admin may end an election is undecided.
  `EndCheck` rejects such a call.
- Rules.EndCheck: it takes no block time, so the admin may end an open
  election at any time, before its start as well. The tests end an election
  only after its start; `EndFaults` lists no time term for this choice.
- Rules.CreateCheck: a start equal to the end is undecided. `CreateCheck`
  rejects it.
- Rules.CreateCheck: it takes no block time, so a start at or before the
  current time is accepted. Every test start lies in the future;
  `CreateFaults` lists no time term for this choice.
- Rules.AddCheck: adding a candidate exactly at the start time is undecided.
  `AddCheck` rejects it. Adding to an ended election is undecided too;
  `AddCheck` rejects it with `ElectionNotActive`.
- Rules.RegisterCheck: registering in an ended election is undecided.
  `RegisterCheck` rejects it with `ElectionNotActive`.
- Rules.RegisterCheck: it takes no block time, so registering after the
  start or after the end of an open election's window is accepted. The
  tests register only before the start; `RegisterFaults` lists no time term
  for this choice.
- VotingScenarios: each scenario assumes that the block time equals the host
  clock reading `t0` when its case begins, which is what each case evidently
  intends. The suite's chain clock is not modelled. The suite deploys a new
  contract per case but never resets the chain's clock, so time advanced by
  one case carries into the next (see "## Findings").
- Closing an election implicitly once its end time has passed is not
  exercised by the tests and is not modelled.
- Counts, ids and times are unbounded naturals. The contract's `uint256`
  overflow cannot be reached by a realistic number of votes and is not
  modelled.
- Gas, mining, transaction ordering and consensus are left out. Transactions
  are sequential method calls, and events are values appended to a log.
- The wallet connection and ABI loading (`frontend/src/context/Web3Context.jsx`)
  are network and browser I/O and are left out.
- The React pages and components other than `formatAddress` are left out.
  They render the state and send transactions over the network.
- `scripts/deploy.js` and `hardhat.config.js` are deployment and
  configuration and are left out.
- `calculatePercentage` (`frontend/src/pages/Results.jsx:43-46`) is
  floating-point division and is left out.
- `formatTimestamp` (`frontend/src/pages/ElectionHistory.jsx:26-29`) is
  `Date` and locale formatting and is left out.
- Navbar.FormatAddress: a `null` or `undefined` address is represented by the
  empty string. Strings are sequences of characters, with no UTF-16
  surrogate handling.

## Findings

| source | as written | input that shows it | evidently intended | confidence | as-written member | corrected member |
|---|---|---|---|---|---|---|
| test/VotingContract.test.js:92, 145-152 | no case resets the chain clock, so `time.increaseTo(startTime + 1)` at line 92 leaves the chain about 3600 seconds ahead of the host clock for every later case | the Voting fixture (line 145) run after the case at lines 90-97 within 3501 seconds: its start, host clock plus 100, already lies in the chain's past, and `addCandidate` at line 152 reverts "Cannot add candidates after election starts" | each case starts with the block time equal to the host clock | not executed; rests on Hardhat keeping an advanced clock across cases | VotingScenarios.SharedClockVotingFixture | VotingScenarios.WithVoters |
