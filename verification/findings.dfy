/** The vote instruction accepts a candidacy of any election. A ledger that
    satisfies the invariant is broken by a single such vote: a candidacy of a
    Closed election gains a vote, and the voted election's leader is credited
    with a count no candidacy of its own holds. */
module Findings {
  import opened Types
  import opened Election
  import opened Program
  import opened Invariants

  const E: ElectionKey := ElectionKey("E", 1)
  const F: ElectionKey := ElectionKey("F", 2)
  const CkF: SeatKey := SeatKey(20, F)

  /** Election E (initiator 1) with candidates 10 and 11 is in Voting;
      election F (initiator 2) had the single candidate 20 and was closed
      uncontested. Nobody has voted yet. */
  function Ledger(): State {
    State(
      map[E := ElectionData("E", 2, Voting, 1, 0, 0), F := ElectionData("F", 1, Closed, 2, 0, 0)],
      map[SeatKey(10, E) := CandidateData(1, 10, 0), SeatKey(11, E) := CandidateData(2, 11, 0),
          CkF := CandidateData(1, 20, 0)],
      map[])
  }

  /** The program itself produces that ledger. */
  lemma LedgerIsReachable()
    ensures
      var s1 := CreateElection(Genesis, "E", 1).value;
      var s2 := CreateElection(s1, "F", 2).value;
      var s3 := Apply(s2, E, 10).value;
      var s4 := Apply(s3, E, 11).value;
      var s5 := Apply(s4, F, 20).value;
      var s6 := ChangeStage(s5, F, 2, Voting).value;
      ChangeStage(s6, E, 1, Voting) == Ok(Ledger())
  {
    assert E != F;
    var s1 := CreateElection(Genesis, "E", 1).value;
    var s2 := CreateElection(s1, "F", 2).value;
    assert s2.elections.Keys == {E, F};
    var s3 := Apply(s2, E, 10).value;
    var s4 := Apply(s3, E, 11).value;
    var s5 := Apply(s4, F, 20).value;
    assert s5.elections[F].candidates == 1 && s5.elections[E].candidates == 2;
    var s6 := ChangeStage(s5, F, 2, Voting).value;
    var s7 := ChangeStage(s6, E, 1, Voting).value;
    assert s7.elections == Ledger().elections;
    assert s7.candidacies == s5.candidacies;
    assert s5.candidacies == Ledger().candidacies;
  }

  lemma LedgerIsGood()
    ensures Good(Ledger())
  {
    var s := Ledger();
    assert E != F;
    assert s.candidacies.Keys == {SeatKey(10, E), SeatKey(11, E), CkF};
    forall k, id | k in s.elections && 1 <= id <= s.elections[k].candidates
      ensures HasId(s, k, id)
    {
      if k == E && id == 1 {
        assert s.candidacies[SeatKey(10, E)].id == 1;
      } else if k == E {
        assert s.candidacies[SeatKey(11, E)].id == 2;
      } else {
        assert s.candidacies[CkF].id == 1;
      }
    }
  }

  /** Voter 30 votes in E for F's candidacy: the vote goes through, a
      candidacy of the Closed election F gains a vote, E credits that vote
      to its own candidate with the same id, the invariant is lost, and the
      constrained vote rejects the same request. */
  lemma CrossElectionVoteBreaksLeader()
    ensures Good(Ledger())
    ensures Ledger().elections[F].stage == Closed
    ensures Vote(Ledger(), E, CkF, 30).Ok?
    ensures Vote(Ledger(), E, CkF, 30).value.candidacies[CkF].votes == 1
    ensures Vote(Ledger(), E, CkF, 30).value.elections[F].winnersVotes == 0
    ensures !Good(Vote(Ledger(), E, CkF, 30).value)
    // E now reports its candidate 1 as leading with one vote, which that candidate never received
    ensures Vote(Ledger(), E, CkF, 30).value.elections[E].winnersId == 1
    ensures Vote(Ledger(), E, CkF, 30).value.elections[E].winnersVotes == 1
    ensures Vote(Ledger(), E, CkF, 30).value.candidacies[SeatKey(10, E)] == CandidateData(1, 10, 0)
    ensures VoteChecked(Ledger(), E, CkF, 30) == Err(ConstraintSeeds)
  {
    LedgerIsGood();
    var s := Ledger();
    assert E != F;
    var r := Vote(s, E, CkF, 30);
    assert r.Ok?;
    assert r.value.elections[F] == s.elections[F];
    assert !LeaderIsMax(r.value, F);
  }
}
