/** Worked runs of the program on concrete ledgers: the tie rule of the
    leader tracker, a full contested election, and an uncontested one. */
module Scenarios {
  import opened Types
  import opened Election
  import opened Program

  /** A reaches 3 votes and leads; B reaching 3 does not take the lead; B
      reaching 4 does. */
  lemma TieKeepsIncumbent(e: ElectionData)
    requires e.winnersId == 1 && e.winnersVotes == 3
    ensures RecordVote(e, 2, 3) == e
    ensures RecordVote(RecordVote(e, 2, 3), 2, 4).winnersId == 2
    ensures RecordVote(RecordVote(e, 2, 3), 2, 4).winnersVotes == 4
  {
  }

  const I: Pubkey := 1
  const E1: ElectionKey := ElectionKey("E1", I)

  /** Election "E1" by I, candidates 11, 12, 13, applications closed. */
  lemma ContestedSetup()
    ensures
      var s1 := CreateElection(Genesis, "E1", I).value;
      var s2 := Apply(s1, E1, 11).value;
      var s3 := Apply(s2, E1, 12).value;
      var s4 := Apply(s3, E1, 13).value;
      var s5 := ChangeStage(s4, E1, I, Voting).value;
      && s4.candidacies[SeatKey(11, E1)].id == 1
      && s4.candidacies[SeatKey(12, E1)].id == 2
      && s4.candidacies[SeatKey(13, E1)].id == 3
      && s5.elections[E1].stage == Voting
      && s5.elections[E1].candidates == 3
      && s5.candidacies == s4.candidacies
      && s5 == ContestedOpen()
  {
  }

  /** The ledger of ContestedSetup once voting has opened. */
  function ContestedOpen(): State {
    State(
      map[E1 := ElectionData("E1", 3, Voting, I, 0, 0)],
      map[SeatKey(11, E1) := CandidateData(1, 11, 0), SeatKey(12, E1) := CandidateData(2, 12, 0),
          SeatKey(13, E1) := CandidateData(3, 13, 0)],
      map[])
  }

  /** Voters 21 and 22 vote for candidate 1, voter 23 for candidate 2: the
      leader is candidate 1 with 2 votes; closing succeeds and a further vote
      is refused. */
  lemma ContestedVoting()
    ensures
      var s5 := ContestedOpen();
      var s6 := Vote(s5, E1, SeatKey(11, E1), 21).value;
      var s7 := Vote(s6, E1, SeatKey(11, E1), 22).value;
      var s8 := Vote(s7, E1, SeatKey(12, E1), 23).value;
      var s9 := ChangeStage(s8, E1, I, Closed).value;
      && s8.elections[E1].winnersId == 1
      && s8.elections[E1].winnersVotes == 2
      && s8.candidacies[SeatKey(11, E1)].votes == 2
      && s8.candidacies[SeatKey(12, E1)].votes == 1
      && s9.elections[E1].stage == Closed
      && Vote(s9, E1, SeatKey(13, E1), 24) == Err(NotVotingStage)
      && Vote(s9, E1, SeatKey(11, E1), 21) == Err(AccountInUse)
  {
  }

  /** A single applicant: the request for Voting closes the election at
      once, and no leader is recorded. */
  lemma Uncontested()
    ensures
      var s1 := CreateElection(Genesis, "E1", I).value;
      var s2 := Apply(s1, E1, 11).value;
      var r := ChangeStage(s2, E1, I, Voting);
      && r.Ok?
      && r.value.elections[E1].stage == Closed
      && r.value.elections[E1].winnersId == 0
      && r.value.elections[E1].winnersVotes == 0
      && r.value.candidacies[SeatKey(11, E1)] == CandidateData(1, 11, 0)
  {
  }
}
