/** Counting: the sum of a candidate list's vote counts, the ballots
    recorded in the event log, and the winner computation `endElection`
    runs over the candidate list. */
module Tally {
  import opened ElectionTypes

  /** The sum of the vote counts of `cs`. */
  function SumVotes(cs: seq<Candidate>): nat {
    if cs == [] then 0 else SumVotes(cs[..|cs| - 1]) + cs[|cs| - 1].voteCount
  }

  /** Appending a candidate adds its count to the sum. */
  lemma SumVotesAppend(cs: seq<Candidate>, c: Candidate)
    ensures SumVotes(cs + [c]) == SumVotes(cs) + c.voteCount
  {
    assert (cs + [c])[..|cs|] == cs;
  }

  /** Replacing one candidate changes the sum by the difference of the two counts. */
  lemma {:induction false} SumVotesUpdate(cs: seq<Candidate>, j: nat, c: Candidate)
    requires j < |cs|
    ensures SumVotes(cs[j := c]) + cs[j].voteCount == SumVotes(cs) + c.voteCount
  {
    var n := |cs| - 1;
    var cs' := cs[j := c];
    if j == n {
      assert cs'[..n] == cs[..n];
    } else {
      assert cs'[..n] == cs[..n][j := c];
      SumVotesUpdate(cs[..n], j, c);
    }
  }

  /** Candidate `j` has strictly more votes than every other candidate. */
  predicate IsUniqueTop(cs: seq<Candidate>, j: nat)
    requires j < |cs|
  {
    forall m :: 0 <= m < |cs| && m != j ==> cs[m].voteCount < cs[j].voteCount
  }

  /** What `endElection` may report for the candidate list `cs`, as far as
      the tests fix it: the reported count is the largest count (0 when there
      are no candidates); a reported winner (0 is "no winner") holds that
      count; a candidate strictly ahead of all others with at least one vote
      is the winner. Which candidate wins a tie is left open. */
  ghost predicate IsWinnerReport(cs: seq<Candidate>, winnerId: nat, winningVoteCount: nat) {
    && (forall j :: 0 <= j < |cs| ==> cs[j].voteCount <= winningVoteCount)
    && (cs == [] ==> winningVoteCount == 0)
    && (cs != [] ==> exists j :: 0 <= j < |cs| && cs[j].voteCount == winningVoteCount)
    && winnerId <= |cs|
    && (winnerId != 0 ==> cs[winnerId - 1].voteCount == winningVoteCount)
    && (forall j :: 0 <= j < |cs| && IsUniqueTop(cs, j) && cs[j].voteCount > 0 ==> winnerId == j + 1)
  }

  /** The winner computation of `endElection`: one pass over the candidates
      keeping the first candidate whose count beats the best seen so far,
      starting from a best of 0 and winner 0. */
  method FindWinner(cs: seq<Candidate>) returns (winnerId: nat, winningVoteCount: nat)
    ensures IsWinnerReport(cs, winnerId, winningVoteCount)
  {
    winnerId, winningVoteCount := 0, 0;
    var i := 0;
    while i < |cs|
      invariant i <= |cs|
      invariant winnerId <= i
      invariant forall j :: 0 <= j < i ==> cs[j].voteCount <= winningVoteCount
      invariant winnerId == 0 ==> winningVoteCount == 0
      invariant winnerId != 0 ==> cs[winnerId - 1].voteCount == winningVoteCount
    {
      if cs[i].voteCount > winningVoteCount {
        winnerId, winningVoteCount := i + 1, cs[i].voteCount;
      }
      i := i + 1;
    }
    if cs != [] {
      var w := if winnerId == 0 then 0 else winnerId - 1;
      assert cs[w].voteCount == winningVoteCount;
    }
    forall j | 0 <= j < |cs| && IsUniqueTop(cs, j) && cs[j].voteCount > 0
      ensures winnerId == j + 1
    {
      assert winnerId != 0;
    }
  }

  /** The largest vote count of `cs`, 0 for no candidates: a reference
      definition of the winning count. */
  function MaxVotes(cs: seq<Candidate>): nat {
    if cs == [] then 0
    else
      var m := MaxVotes(cs[..|cs| - 1]);
      if cs[|cs| - 1].voteCount > m then cs[|cs| - 1].voteCount else m
  }

  /** `MaxVotes` bounds every count and, for a non-empty list, is attained. */
  lemma {:induction false} MaxVotesIsMax(cs: seq<Candidate>)
    ensures forall j :: 0 <= j < |cs| ==> cs[j].voteCount <= MaxVotes(cs)
    ensures cs != [] ==> exists j :: 0 <= j < |cs| && cs[j].voteCount == MaxVotes(cs)
  {
    if cs != [] {
      var n := |cs| - 1;
      var init := cs[..n];
      MaxVotesIsMax(init);
      assert forall j :: 0 <= j < n ==> init[j] == cs[j];
      if cs[n].voteCount <= MaxVotes(init) && n > 0 {
        var j :| 0 <= j < n && init[j].voteCount == MaxVotes(init);
        assert cs[j].voteCount == MaxVotes(cs);
      }
    }
  }

  /** Every winner report carries the same count, the largest one: the
      reported winning count does not depend on how ties are broken. */
  lemma WinningCountIsMax(cs: seq<Candidate>, winnerId: nat, winningVoteCount: nat)
    requires IsWinnerReport(cs, winnerId, winningVoteCount)
    ensures winningVoteCount == MaxVotes(cs)
  {
    MaxVotesIsMax(cs);
    if cs != [] {
      var j :| 0 <= j < |cs| && cs[j].voteCount == winningVoteCount;
      assert MaxVotes(cs) <= winningVoteCount;
    }
  }

  /** No candidate has more votes than the total. */
  lemma {:induction false} CountAtMostSum(cs: seq<Candidate>, j: nat)
    requires j < |cs|
    ensures cs[j].voteCount <= SumVotes(cs)
  {
    var n := |cs| - 1;
    if j < n {
      CountAtMostSum(cs[..n], j);
    }
  }

  /** The winning count of a report is at most the total number of votes. */
  lemma WinnerAtMostTotal(cs: seq<Candidate>, winnerId: nat, winningVoteCount: nat)
    requires IsWinnerReport(cs, winnerId, winningVoteCount)
    ensures winningVoteCount <= SumVotes(cs)
  {
    if cs != [] {
      var j :| 0 <= j < |cs| && cs[j].voteCount == winningVoteCount;
      CountAtMostSum(cs, j);
    }
  }

  /** `ev` records a ballot in election `electionId`. */
  predicate IsBallot(ev: Event, electionId: nat) {
    ev.VoteCast? && ev.electionId == electionId
  }

  /** The number of ballots the log records for election `electionId`. */
  function BallotsIn(log: seq<Event>, electionId: nat): nat {
    if log == [] then 0
    else BallotsIn(log[..|log| - 1], electionId) + (if IsBallot(log[|log| - 1], electionId) then 1 else 0)
  }

  /** The number of ballots the log records for candidate `candidateId` of election `electionId`. */
  function BallotsFor(log: seq<Event>, electionId: nat, candidateId: nat): nat {
    if log == [] then 0
    else
      var ev := log[|log| - 1];
      BallotsFor(log[..|log| - 1], electionId, candidateId)
      + (if IsBallot(ev, electionId) && ev.candidateId == candidateId then 1 else 0)
  }

  /** The number of ballots the log records as cast by `voter` in election `electionId`. */
  function BallotsBy(log: seq<Event>, electionId: nat, voter: Address): nat {
    if log == [] then 0
    else
      var ev := log[|log| - 1];
      BallotsBy(log[..|log| - 1], electionId, voter)
      + (if IsBallot(ev, electionId) && ev.voter == voter then 1 else 0)
  }

  /** Emitting one more event changes the ballot counts only by that event. */
  lemma BallotsAppend(log: seq<Event>, ev: Event)
    ensures forall id :: BallotsIn(log + [ev], id) == BallotsIn(log, id) + (if IsBallot(ev, id) then 1 else 0)
    ensures forall id, c ::
      BallotsFor(log + [ev], id, c) == BallotsFor(log, id, c) + (if IsBallot(ev, id) && ev.candidateId == c then 1 else 0)
    ensures forall id, v ::
      BallotsBy(log + [ev], id, v) == BallotsBy(log, id, v) + (if IsBallot(ev, id) && ev.voter == v then 1 else 0)
  {
    assert (log + [ev])[..|log|] == log;
  }

  /** A log with no ballot for an election has none for any of its candidates
      and none by any voter. */
  lemma {:induction false} NoBallotsIn(log: seq<Event>, electionId: nat)
    requires BallotsIn(log, electionId) == 0
    ensures forall c :: BallotsFor(log, electionId, c) == 0
    ensures forall v :: BallotsBy(log, electionId, v) == 0
  {
    if log != [] {
      NoBallotsIn(log[..|log| - 1], electionId);
    }
  }
}
