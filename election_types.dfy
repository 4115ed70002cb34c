/** Values shared by the voting contract model: accounts, the records the
    contract stores and returns, the events it emits and the reasons it
    reverts with. */
module ElectionTypes {

  /** A Solidity `address`: an unsigned 160-bit account number. */
  newtype Address = x: int | 0 <= x < 0x1_0000000000_0000000000_0000000000_0000000000

  /** One candidate of one election; ids are 1-based within the election. */
  datatype Candidate = Candidate(id: nat, name: string, party: string, voteCount: nat)

  /** What the contract knows about one account in one election. An account
      the admin never registered reads as `Unregistered` (a Solidity mapping's
      zero value). `votedCandidateId == 0` means "has not voted". */
  datatype VoterStatus = VoterStatus(isRegistered: bool, hasVoted: bool, votedCandidateId: nat)

  const Unregistered := VoterStatus(false, false, 0)

  /** The stored header of one election. `winnerId == 0` means "no winner"
      (the frontend shows such an election's winner as still to be decided). */
  datatype Election = Election(
    id: nat,
    name: string,
    startTime: nat,
    endTime: nat,
    isActive: bool,
    winnerId: nat,
    totalVotes: nat,
    candidateCount: nat)

  /** The value `getResults` returns. */
  datatype ElectionResults = ElectionResults(candidateList: seq<Candidate>, winnerId: nat, totalVotes: nat)

  /** The five events the contract emits, with the arguments the tests check. */
  datatype Event =
    | ElectionCreated(electionId: nat, name: string, startTime: nat, endTime: nat)
    | CandidateAdded(electionId: nat, candidateId: nat, name: string, party: string)
    | VoterRegistered(electionId: nat, voter: Address)
    | VoteCast(electionId: nat, voter: Address, candidateId: nat)
    | ElectionEnded(electionId: nat, winnerId: nat, winningVoteCount: nat)

  /** The reasons a transaction reverts, one per revert string. */
  datatype Error =
    | OnlyAdmin             // "Only admin can perform this action"
    | StartNotBeforeEnd     // "Start time must be before end time"
    | InvalidElection       // the model's guard against an election id that was never allocated
    | CandidatesAfterStart  // "Cannot add candidates after election starts"
    | AlreadyRegistered     // "Voter already registered"
    | ElectionNotActive     // the model's guard against changing an election the admin has ended
    | NotStarted            // "Election has not started yet"
    | Ended                 // "Election has ended"
    | NotRegistered         // "You are not registered for this election"
    | AlreadyVoted          // "You have already voted"
    | InvalidCandidate      // "Invalid candidate"

  datatype Option<T> = None | Some(value: T)

  /** A call either succeeds with a value (an emitted event, a query result)
      or reverts with an `Error`, changing nothing. */
  datatype Result<T> = Ok(value: T) | Err(error: Error)

  /** The status of `voter` in a per-election voter mapping. */
  function StatusOf(voters: map<Address, VoterStatus>, voter: Address): VoterStatus {
    if voter in voters then voters[voter] else Unregistered
  }
}
