/** The ledger invariant every reachable state keeps, and its preservation by
    each instruction (with the vote instruction's candidacy tied to its own
    election).

    The invariant says, for every election:
    - its record matches its address (id and initiator);
    - its candidacies carry the ids 1..candidates, each exactly once, and are
      owned by the signer in their address;
    - the tracked leader is a true maximum: the leading count is at least
      every candidacy's count, and a nonzero leader id names a candidacy that
      holds exactly the leading count;
    - nobody has a vote while the election is still taking applications. */
module Invariants {
  import opened Types
  import opened Election
  import opened Program

  ghost predicate KeysMatch(s: State) {
    forall ek | ek in s.elections :: s.elections[ek].id == ek.id && s.elections[ek].initiator == ek.initiator
  }

  /** Every candidacy belongs to an existing election, has an id in
      1..candidates, and is owned by the signer of its address. */
  ghost predicate CandidaciesBelong(s: State) {
    forall ck | ck in s.candidacies ::
      && ck.election in s.elections
      && 1 <= s.candidacies[ck].id <= s.elections[ck.election].candidates
      && s.candidacies[ck].pubkey == ck.signer
  }

  /** No two candidacies of one election share an id. */
  ghost predicate IdsDistinct(s: State) {
    forall c1, c2 | c1 in s.candidacies && c2 in s.candidacies
                    && c1.election == c2.election && s.candidacies[c1].id == s.candidacies[c2].id
      :: c1 == c2
  }

  /** Some candidacy of election `ek` has id `id`. */
  ghost predicate HasId(s: State, ek: ElectionKey, id: nat) {
    exists ck | ck in s.candidacies :: ck.election == ek && s.candidacies[ck].id == id
  }

  /** Every id in 1..candidates is taken. */
  ghost predicate IdsDense(s: State) {
    forall ek, id | ek in s.elections && 1 <= id <= s.elections[ek].candidates :: HasId(s, ek, id)
  }

  /** Some candidacy of election `ek` has id `id` and exactly `votes` votes. */
  ghost predicate Holds(s: State, ek: ElectionKey, id: nat, votes: nat) {
    exists ck | ck in s.candidacies :: ck.election == ek && s.candidacies[ck].id == id && s.candidacies[ck].votes == votes
  }

  /** The tracked leader of election `ek` is a maximum of its candidacies' counts. */
  ghost predicate LeaderIsMax(s: State, ek: ElectionKey)
    requires ek in s.elections
  {
    var e := s.elections[ek];
    && (e.winnersId == 0 <==> e.winnersVotes == 0)
    && (e.winnersId != 0 ==> Holds(s, ek, e.winnersId, e.winnersVotes))
    && (forall ck | ck in s.candidacies && ck.election == ek :: s.candidacies[ck].votes <= e.winnersVotes)
  }

  ghost predicate LeadersAreMax(s: State) {
    forall ek | ek in s.elections :: LeaderIsMax(s, ek)
  }

  /** While applications are open, no vote has been counted. */
  ghost predicate NoVotesBeforeVoting(s: State) {
    forall ek | ek in s.elections && s.elections[ek].stage == Application :: s.elections[ek].winnersVotes == 0
  }

  ghost predicate Good(s: State) {
    && KeysMatch(s)
    && CandidaciesBelong(s)
    && IdsDistinct(s)
    && IdsDense(s)
    && LeadersAreMax(s)
    && NoVotesBeforeVoting(s)
  }

  lemma GenesisGood()
    ensures Good(Genesis)
  {
  }

  /** A new election has no candidacies yet, so it trivially satisfies the
      invariant; the others are untouched. */
  lemma CreatePreservesGood(s: State, electionId: string, signer: Pubkey)
    requires Good(s) && CreateElection(s, electionId, signer).Ok?
    ensures Good(CreateElection(s, electionId, signer).value)
  {
    var s' := CreateElection(s, electionId, signer).value;
    var ek := ElectionKey(electionId, signer);
    forall k | k in s'.elections
      ensures LeaderIsMax(s', k)
    {
      if k != ek {
        assert LeaderIsMax(s, k);
      }
    }
    forall k, id | k in s'.elections && 1 <= id <= s'.elections[k].candidates
      ensures HasId(s', k, id)
    {
      assert HasId(s, k, id);
    }
  }

  /** The new candidacy takes the fresh id candidates + 1 with no votes, so
      ids stay 1..candidates without repeats and the leader stays maximal. */
  lemma ApplyPreservesGood(s: State, ek: ElectionKey, signer: Pubkey)
    requires Good(s) && Apply(s, ek, signer).Ok?
    ensures Good(Apply(s, ek, signer).value)
  {
    var s' := Apply(s, ek, signer).value;
    assert CandidaciesBelong(s');
    ApplyKeepsIdsDistinct(s, s', ek, signer);
    ApplyKeepsIdsDense(s, s', ek, signer);
    ApplyKeepsLeaders(s, s', ek, signer);
  }

  lemma ApplyKeepsIdsDistinct(s: State, s': State, ek: ElectionKey, signer: Pubkey)
    requires Good(s) && Apply(s, ek, signer).Ok? && s' == Apply(s, ek, signer).value
    ensures IdsDistinct(s')
  {
    var ck := SeatKey(signer, ek);
    forall c1, c2 | c1 in s'.candidacies && c2 in s'.candidacies
                    && c1.election == c2.election && s'.candidacies[c1].id == s'.candidacies[c2].id
      ensures c1 == c2
    {
      if c1 != ck && c2 != ck {
        assert s.candidacies[c1].id == s.candidacies[c2].id;
      }
    }
  }

  lemma ApplyKeepsIdsDense(s: State, s': State, ek: ElectionKey, signer: Pubkey)
    requires Good(s) && Apply(s, ek, signer).Ok? && s' == Apply(s, ek, signer).value
    ensures IdsDense(s')
  {
    var ck := SeatKey(signer, ek);
    var n := s'.elections[ek].candidates;
    forall k, id | k in s'.elections && 1 <= id <= s'.elections[k].candidates
      ensures HasId(s', k, id)
    {
      if k == ek && id == n {
        assert ck in s'.candidacies && s'.candidacies[ck].id == id;
      } else {
        assert HasId(s, k, id);
        var w :| w in s.candidacies && w.election == k && s.candidacies[w].id == id;
        assert w in s'.candidacies && s'.candidacies[w].id == id;
      }
    }
  }

  lemma ApplyKeepsLeaders(s: State, s': State, ek: ElectionKey, signer: Pubkey)
    requires Good(s) && Apply(s, ek, signer).Ok? && s' == Apply(s, ek, signer).value
    ensures LeadersAreMax(s')
  {
    forall k | k in s'.elections
      ensures LeaderIsMax(s', k)
    {
      assert LeaderIsMax(s, k);
      var e := s.elections[k];
      if e.winnersId != 0 {
        var w :| w in s.candidacies && w.election == k && s.candidacies[w].id == e.winnersId
                 && s.candidacies[w].votes == e.winnersVotes;
        assert w in s'.candidacies && s'.candidacies[w] == s.candidacies[w];
      }
      if k == ek {
        assert e.winnersVotes == 0;
      }
    }
  }

  /** A stage change rewrites only the stage, and only forward: Application
      is never re-entered, so no election with votes goes back to it. */
  lemma ChangeStagePreservesGood(s: State, ek: ElectionKey, signer: Pubkey, newStage: ElectionStage)
    requires Good(s) && ChangeStage(s, ek, signer, newStage).Ok?
    ensures Good(ChangeStage(s, ek, signer, newStage).value)
  {
    var s' := ChangeStage(s, ek, signer, newStage).value;
    forall k | k in s'.elections
      ensures LeaderIsMax(s', k)
    {
      assert LeaderIsMax(s, k);
    }
    forall k, id | k in s'.elections && 1 <= id <= s'.elections[k].candidates
      ensures HasId(s', k, id)
    {
      assert HasId(s, k, id);
    }
  }

  /** The leader-tracking step keeps the leader maximal, provided the voted
      candidacy belongs to the election whose leader is updated. */
  lemma VoteCheckedPreservesGood(s: State, ek: ElectionKey, ck: SeatKey, voter: Pubkey)
    requires Good(s) && VoteChecked(s, ek, ck, voter).Ok?
    ensures Good(VoteChecked(s, ek, ck, voter).value)
  {
    assert ck.election == ek;
    var s' := Vote(s, ek, ck, voter).value;
    VoteKeepsIds(s, s', ek, ck, voter);
    forall k | k in s'.elections
      ensures LeaderIsMax(s', k)
    {
      if k != ek {
        VoteKeepsOtherLeaders(s, s', ek, ck, voter, k);
      } else {
        VoteKeepsLeaderMax(s, s', ek, ck, voter);
      }
    }
  }

  /** A vote changes no id, owner or candidate count, and votes only in an
      election that is past Application. */
  lemma VoteKeepsIds(s: State, s': State, ek: ElectionKey, ck: SeatKey, voter: Pubkey)
    requires Good(s) && Vote(s, ek, ck, voter).Ok? && s' == Vote(s, ek, ck, voter).value
    ensures KeysMatch(s') && CandidaciesBelong(s') && IdsDistinct(s') && IdsDense(s') && NoVotesBeforeVoting(s')
  {
    forall c1, c2 | c1 in s'.candidacies && c2 in s'.candidacies
                    && c1.election == c2.election && s'.candidacies[c1].id == s'.candidacies[c2].id
      ensures c1 == c2
    {
      assert s.candidacies[c1].id == s.candidacies[c2].id;
    }
    forall k, id | k in s'.elections && 1 <= id <= s'.elections[k].candidates
      ensures HasId(s', k, id)
    {
      assert HasId(s, k, id);
      var w :| w in s.candidacies && w.election == k && s.candidacies[w].id == id;
      assert w in s'.candidacies && s'.candidacies[w].id == id;
    }
  }

  /** A vote in one election leaves another election's leader maximal, as
      long as the voted candidacy belongs to the voted election. */
  lemma VoteKeepsOtherLeaders(s: State, s': State, ek: ElectionKey, ck: SeatKey, voter: Pubkey, k: ElectionKey)
    requires Good(s) && ck.election == ek && Vote(s, ek, ck, voter).Ok? && s' == Vote(s, ek, ck, voter).value
    requires k in s'.elections && k != ek
    ensures LeaderIsMax(s', k)
  {
  }

  /** The three cases of the leader tracker, for the voted election. */
  lemma VoteKeepsLeaderMax(s: State, s': State, ek: ElectionKey, ck: SeatKey, voter: Pubkey)
    requires Good(s) && ck.election == ek && Vote(s, ek, ck, voter).Ok? && s' == Vote(s, ek, ck, voter).value
    ensures LeaderIsMax(s', ek)
  {
  }

  /** Under the invariant, the leader is THE candidacy with the maximal count:
      its count bounds every other, and any candidacy carrying the leader's
      id has exactly the leading count. */
  lemma LeaderHoldsMaximum(s: State, ek: ElectionKey, ck: SeatKey)
    requires Good(s) && ek in s.elections && ck in s.candidacies && ck.election == ek
    ensures 1 <= s.candidacies[ck].id <= s.elections[ek].candidates
    ensures s.candidacies[ck].votes <= s.elections[ek].winnersVotes
    ensures s.candidacies[ck].id == s.elections[ek].winnersId ==>
            s.candidacies[ck].votes == s.elections[ek].winnersVotes
  {
  }

  /** The ids carried by the candidacies of election `ek`. */
  ghost function CandidateIds(s: State, ek: ElectionKey): set<nat> {
    set ck | ck in s.candidacies && ck.election == ek :: s.candidacies[ck].id
  }

  /** Under the invariant the candidacies of an election carry exactly the
      ids 1..candidates: no gaps, and (by IdsDistinct) no repeats. */
  lemma IdsAreOneToN(s: State, ek: ElectionKey)
    requires Good(s) && ek in s.elections
    ensures forall id: nat :: id in CandidateIds(s, ek) <==> 1 <= id <= s.elections[ek].candidates
  {
    forall id: nat | 1 <= id <= s.elections[ek].candidates
      ensures id in CandidateIds(s, ek)
    {
      assert HasId(s, ek, id);
      var w :| w in s.candidacies && w.election == ek && s.candidacies[w].id == id;
    }
  }
}
