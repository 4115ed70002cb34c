/** The revert conditions of the contract's transactions, on values.
    For each transaction, a `...Check` function performs the guards in the
    order the model runs them and returns the first that fails, and a
    `...Faults` function lists declaratively every guard that fails. The
    tests never trigger two faults at once, so they fix the reported reason
    only when there is exactly one; and some cases they do not decide at
    all. `Faults(..., false)` holds the faults every reading of the tests
    rejects, plus the model's own `InvalidElection`; `Faults(..., true)`
    adds the undecided cases the model lists. The block time matters only
    to adding candidates and to voting: creating, registering and ending
    take none, which decides cases the tests never probe. Each check reverts
    whenever a fault of the first kind is present, succeeds whenever there
    is no fault of the second kind, and reports one of the present faults. */
module Rules {
  import opened ElectionTypes

  /** `electionId` names one of the elections `els` (ids are 1, 2, ...). */
  predicate Allocated(els: seq<Election>, electionId: nat) {
    1 <= electionId <= |els|
  }

  /** `{e}` when `b` holds, otherwise no fault. */
  function FaultIf(b: bool, e: Error): set<Error> {
    if b then {e} else {}
  }

  /** Faults of `createElection(name, startTime, endTime)`. Undecided: a
      start equal to the end. */
  function CreateFaults(admin: Address, caller: Address, startTime: nat, endTime: nat, undecided: bool): set<Error> {
    FaultIf(caller != admin, OnlyAdmin)
    + FaultIf(endTime < startTime || (undecided && endTime == startTime), StartNotBeforeEnd)
  }

  function CreateCheck(admin: Address, caller: Address, startTime: nat, endTime: nat): (r: Option<Error>)
    ensures r.None? ==> CreateFaults(admin, caller, startTime, endTime, false) == {}
    ensures CreateFaults(admin, caller, startTime, endTime, true) == {} ==> r.None?
    ensures r.Some? ==> r.value in CreateFaults(admin, caller, startTime, endTime, true)
  {
    if caller != admin then Some(OnlyAdmin)
    else if startTime >= endTime then Some(StartNotBeforeEnd)
    else None
  }

  /** Faults of `addCandidate(electionId, ...)` at time `now`. Undecided:
      adding exactly at the start time, and adding to an election the admin
      has already ended. */
  function AddFaults(admin: Address, els: seq<Election>, caller: Address, electionId: nat, now: nat, undecided: bool): set<Error> {
    FaultIf(caller != admin, OnlyAdmin)
    + (if !Allocated(els, electionId) then {InvalidElection}
       else
         var e := els[electionId - 1];
         FaultIf(undecided && !e.isActive, ElectionNotActive)
         + FaultIf(now > e.startTime || (undecided && now == e.startTime), CandidatesAfterStart))
  }

  function AddCheck(admin: Address, els: seq<Election>, caller: Address, electionId: nat, now: nat): (r: Option<Error>)
    ensures r.None? ==> AddFaults(admin, els, caller, electionId, now, false) == {}
    ensures AddFaults(admin, els, caller, electionId, now, true) == {} ==> r.None?
    ensures r.Some? ==> r.value in AddFaults(admin, els, caller, electionId, now, true)
  {
    if caller != admin then Some(OnlyAdmin)
    else if !Allocated(els, electionId) then Some(InvalidElection)
    else if !els[electionId - 1].isActive then Some(ElectionNotActive)
    else if now >= els[electionId - 1].startTime then Some(CandidatesAfterStart)
    else None
  }

  /** Faults of `registerVoter(electionId, voter)`; there is no time
      restriction. Undecided: registering in an election the admin has
      already ended. */
  function RegisterFaults(
    admin: Address, els: seq<Election>, vss: seq<map<Address, VoterStatus>>,
    caller: Address, electionId: nat, voter: Address, undecided: bool): set<Error>
    requires |vss| == |els|
  {
    FaultIf(caller != admin, OnlyAdmin)
    + (if !Allocated(els, electionId) then {InvalidElection}
       else
         FaultIf(undecided && !els[electionId - 1].isActive, ElectionNotActive)
         + FaultIf(StatusOf(vss[electionId - 1], voter).isRegistered, AlreadyRegistered))
  }

  function RegisterCheck(
    admin: Address, els: seq<Election>, vss: seq<map<Address, VoterStatus>>,
    caller: Address, electionId: nat, voter: Address): (r: Option<Error>)
    requires |vss| == |els|
    ensures r.None? ==> RegisterFaults(admin, els, vss, caller, electionId, voter, false) == {}
    ensures RegisterFaults(admin, els, vss, caller, electionId, voter, true) == {} ==> r.None?
    ensures r.Some? ==> r.value in RegisterFaults(admin, els, vss, caller, electionId, voter, true)
  {
    if caller != admin then Some(OnlyAdmin)
    else if !Allocated(els, electionId) then Some(InvalidElection)
    else if !els[electionId - 1].isActive then Some(ElectionNotActive)
    else if StatusOf(vss[electionId - 1], voter).isRegistered then Some(AlreadyRegistered)
    else None
  }

  /** Faults of `castVote(electionId, candidateId)` sent by `caller` at time
      `now`. Undecided: voting exactly at the start or at the end time, and
      voting in an election the admin has already ended. */
  function VoteFaults(
    els: seq<Election>, vss: seq<map<Address, VoterStatus>>,
    caller: Address, electionId: nat, candidateId: nat, now: nat, undecided: bool): set<Error>
    requires |vss| == |els|
  {
    if !Allocated(els, electionId) then {InvalidElection}
    else
      var e := els[electionId - 1];
      var s := StatusOf(vss[electionId - 1], caller);
      FaultIf(undecided && !e.isActive, ElectionNotActive)
      + FaultIf(now < e.startTime || (undecided && now == e.startTime), NotStarted)
      + FaultIf(now > e.endTime || (undecided && now == e.endTime), Ended)
      + FaultIf(!s.isRegistered, NotRegistered)
      + FaultIf(s.hasVoted, AlreadyVoted)
      + FaultIf(!(1 <= candidateId <= e.candidateCount), InvalidCandidate)
  }

  function VoteCheck(
    els: seq<Election>, vss: seq<map<Address, VoterStatus>>,
    caller: Address, electionId: nat, candidateId: nat, now: nat): (r: Option<Error>)
    requires |vss| == |els|
    ensures r.None? ==> VoteFaults(els, vss, caller, electionId, candidateId, now, false) == {}
    ensures VoteFaults(els, vss, caller, electionId, candidateId, now, true) == {} ==> r.None?
    ensures r.Some? ==> r.value in VoteFaults(els, vss, caller, electionId, candidateId, now, true)
  {
    if !Allocated(els, electionId) then Some(InvalidElection)
    else
      var e := els[electionId - 1];
      var s := StatusOf(vss[electionId - 1], caller);
      if !e.isActive then Some(ElectionNotActive)
      else if now < e.startTime then Some(NotStarted)
      else if now > e.endTime then Some(Ended)
      else if !s.isRegistered then Some(NotRegistered)
      else if s.hasVoted then Some(AlreadyVoted)
      else if !(1 <= candidateId <= e.candidateCount) then Some(InvalidCandidate)
      else None
  }

  /** Faults of `endElection(electionId)`. Undecided: a caller other than
      the admin, and an election that has already ended. */
  function EndFaults(admin: Address, els: seq<Election>, caller: Address, electionId: nat, undecided: bool): set<Error> {
    FaultIf(undecided && caller != admin, OnlyAdmin)
    + (if !Allocated(els, electionId) then {InvalidElection}
       else FaultIf(undecided && !els[electionId - 1].isActive, ElectionNotActive))
  }

  function EndCheck(admin: Address, els: seq<Election>, caller: Address, electionId: nat): (r: Option<Error>)
    ensures r.None? ==> EndFaults(admin, els, caller, electionId, false) == {}
    ensures EndFaults(admin, els, caller, electionId, true) == {} ==> r.None?
    ensures r.Some? ==> r.value in EndFaults(admin, els, caller, electionId, true)
  {
    if caller != admin then Some(OnlyAdmin)
    else if !Allocated(els, electionId) then Some(InvalidElection)
    else if !els[electionId - 1].isActive then Some(ElectionNotActive)
    else None
  }
}
