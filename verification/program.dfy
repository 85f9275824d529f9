/** The four instructions of the voting program over an abstract ledger.

    Accounts live at program-derived addresses: an election at
    (election id, initiator), a candidacy at ("candidate", signer, election)
    and a ballot at ("vote", signer, election). Those addresses are modelled
    as the keys of three maps. Creating an account whose key is already
    present fails, which is where the one-election-per-(id, initiator),
    one-candidacy-per-(signer, election) and one-ballot-per-(signer, election)
    guarantees come from.

    Each instruction validates its accounts before its body runs: accounts it
    reads must exist (else AccountNotInitialized), then accounts it creates
    must not exist yet (else AccountInUse), then remaining account
    constraints are checked, and only then do the body's own checks run. */
module Program {
  import opened Types
  import opened Election

  /** Address of an election account. */
  datatype ElectionKey = ElectionKey(id: string, initiator: Pubkey)

  /** Address of a candidacy or ballot account: one per (signer, election). */
  datatype SeatKey = SeatKey(signer: Pubkey, election: ElectionKey)

  /** A registered candidate: its sequential id, owner and vote count. */
  datatype CandidateData = CandidateData(id: nat, pubkey: Pubkey, votes: nat)

  /** The double-vote marker. It stores the owner key of the candidate the
      ballot was cast for. */
  datatype Ballot = Ballot(pubkey: Pubkey)

  /** Every account the program owns. */
  datatype State = State(
    elections: map<ElectionKey, ElectionData>,
    candidacies: map<SeatKey, CandidateData>,
    ballots: map<SeatKey, Ballot>)

  /** The ledger before any instruction has run. */
  const Genesis: State := State(map[], map[], map[])

  /** `create_election`: allocate the election at (electionId, signer). */
  function CreateElection(s: State, electionId: string, signer: Pubkey): (r: Result<State>)
    ensures r.Ok? <==> ElectionKey(electionId, signer) !in s.elections
    ensures r.Err? ==> r.error == AccountInUse
    ensures r.Ok? ==>
      var ek := ElectionKey(electionId, signer);
      && r.value.elections.Keys == s.elections.Keys + {ek}
      && (forall k | k in s.elections :: r.value.elections[k] == s.elections[k])
      && r.value.elections[ek].id == electionId
      && r.value.elections[ek].initiator == signer
      && r.value.elections[ek].stage == Application
      && r.value.elections[ek].candidates == 0
      && r.value.elections[ek].winnersId == 0
      && r.value.elections[ek].winnersVotes == 0
      && r.value.candidacies == s.candidacies
      && r.value.ballots == s.ballots
  {
    var ek := ElectionKey(electionId, signer);
    if ek in s.elections then Err(AccountInUse)
    // the leader fields keep the zero the fresh account is filled with
    else Ok(s.(elections := s.elections[ek := ElectionData(electionId, 0, Application, signer, 0, 0)]))
  }

  /** `apply`: register `signer` as the next candidate of election `ek`. */
  function Apply(s: State, ek: ElectionKey, signer: Pubkey): (r: Result<State>)
    ensures ek !in s.elections ==> r == Err(AccountNotInitialized)
    ensures ek in s.elections && SeatKey(signer, ek) in s.candidacies ==> r == Err(AccountInUse)
    ensures ek in s.elections && SeatKey(signer, ek) !in s.candidacies && s.elections[ek].stage != Application
            ==> r == Err(ApplicationIsClosed)
    ensures r.Ok? <==>
      ek in s.elections && SeatKey(signer, ek) !in s.candidacies && s.elections[ek].stage == Application
    ensures r.Ok? ==> r.value.elections.Keys == s.elections.Keys
    ensures r.Ok? ==>
      var e, e' := s.elections[ek], r.value.elections[ek];
      var ck := SeatKey(signer, ek);
      && (forall k | k in s.elections && k != ek :: r.value.elections[k] == s.elections[k])
      && e'.candidates == e.candidates + 1
      && e'.(candidates := e.candidates) == e
      && r.value.candidacies.Keys == s.candidacies.Keys + {ck}
      && (forall k | k in s.candidacies :: r.value.candidacies[k] == s.candidacies[k])
      && r.value.candidacies[ck] == CandidateData(e'.candidates, signer, 0)
      && r.value.ballots == s.ballots
  {
    if ek !in s.elections then Err(AccountNotInitialized)
    else
      var ck := SeatKey(signer, ek);
      if ck in s.candidacies then Err(AccountInUse)
      else
        var e := s.elections[ek];
        if e.stage != Application then Err(ApplicationIsClosed)
        else
          var n := e.candidates + 1;
          Ok(s.(elections := s.elections[ek := e.(candidates := n)],
                candidacies := s.candidacies[ck := CandidateData(n, signer, 0)]))
  }

  /** The instruction body of `change_stage` on one election record. */
  function ChangeElectionStage(e: ElectionData, signer: Pubkey, newStage: ElectionStage): (r: Result<ElectionData>)
    ensures signer != e.initiator ==> r == Err(WrongInitiator)
    ensures signer == e.initiator && e.stage == Closed ==> r == Err(VotingEnded)
    ensures newStage == Application && (signer != e.initiator || e.stage != Closed) ==> r == Err(WrongInitiator)
    ensures newStage == Voting && signer == e.initiator && e.stage == Voting ==> r == Err(ApplicationIsClosed)
    ensures newStage == Closed && signer == e.initiator && e.stage == Application ==> r == Err(NotVotingStage)
    ensures r.Ok? <==>
      signer == e.initiator &&
      ((newStage == Voting && e.stage == Application) || (newStage == Closed && e.stage == Voting))
    // a success moves strictly forward and touches nothing but the stage
    ensures r.Ok? ==> Rank(r.value.stage) > Rank(e.stage) && r.value.(stage := e.stage) == e
    // the requested stage is reached, except that an uncontested election skips Voting
    ensures r.Ok? ==> r.value.stage == (if newStage == Voting && e.candidates == 1 then Closed else newStage)
  {
    if e.initiator != signer then Err(WrongInitiator)
    else if e.stage == Closed then Err(VotingEnded)
    else
      match newStage
      case Voting => CloseApplication(e)
      case Closed => CloseVoting(e)
      case Application => Err(WrongInitiator)
  }

  /** `change_stage`: the initiator moves election `ek` forward. */
  function ChangeStage(s: State, ek: ElectionKey, signer: Pubkey, newStage: ElectionStage): (r: Result<State>)
    ensures ek !in s.elections ==> r == Err(AccountNotInitialized)
    ensures ek in s.elections ==>
      var c := ChangeElectionStage(s.elections[ek], signer, newStage);
      && (c.Err? ==> r == Err(c.error))
      && (c.Ok? ==> r == Ok(s.(elections := s.elections[ek := c.value])))
  {
    if ek !in s.elections then Err(AccountNotInitialized)
    else
      match ChangeElectionStage(s.elections[ek], signer, newStage)
      case Err(err) => Err(err)
      case Ok(e') => Ok(s.(elections := s.elections[ek := e']))
  }

  /** `vote`, as written: `voter` casts a ballot in election `ek` for the
      candidacy at `ck`. Nothing ties `ck` to `ek`: any candidacy account of
      the program is accepted. */
  function Vote(s: State, ek: ElectionKey, ck: SeatKey, voter: Pubkey): (r: Result<State>)
    ensures ck !in s.candidacies || ek !in s.elections ==> r == Err(AccountNotInitialized)
    ensures ck in s.candidacies && ek in s.elections && SeatKey(voter, ek) in s.ballots ==> r == Err(AccountInUse)
    ensures (ck in s.candidacies && ek in s.elections && SeatKey(voter, ek) !in s.ballots
             && s.elections[ek].stage != Voting) ==> r == Err(NotVotingStage)
    ensures r.Ok? <==>
      ck in s.candidacies && ek in s.elections && SeatKey(voter, ek) !in s.ballots
      && s.elections[ek].stage == Voting
    ensures r.Ok? ==> r.value.candidacies.Keys == s.candidacies.Keys
    ensures r.Ok? ==>
      var c, c' := s.candidacies[ck], r.value.candidacies[ck];
      // the chosen candidacy gains exactly one vote
      && c'.votes == c.votes + 1
      && c'.(votes := c.votes) == c
      // no other candidacy changes
      && (forall k | k in s.candidacies && k != ck :: r.value.candidacies[k] == s.candidacies[k])
      // the ballot is recorded
      && r.value.ballots == s.ballots[SeatKey(voter, ek) := Ballot(c.pubkey)]
      // the election's leader is updated with the post-increment count
      && r.value.elections == s.elections[ek := RecordVote(s.elections[ek], c.id, c'.votes)]
  {
    if ck !in s.candidacies || ek !in s.elections then Err(AccountNotInitialized)
    else
      var bk := SeatKey(voter, ek);
      if bk in s.ballots then Err(AccountInUse)
      else
        var e := s.elections[ek];
        if e.stage != Voting then Err(NotVotingStage)
        else
          var c := s.candidacies[ck];
          var c' := c.(votes := c.votes + 1);
          Ok(State(s.elections[ek := RecordVote(e, c'.id, c'.votes)],
                   s.candidacies[ck := c'],
                   s.ballots[bk := Ballot(c'.pubkey)]))
  }

  /** `vote` with the candidacy account constrained to its own seeds:
      ("candidate", owner, ek). A candidacy of another election is rejected
      with ConstraintSeeds after the ballot address check; otherwise this is
      exactly the instruction as written. */
  function VoteChecked(s: State, ek: ElectionKey, ck: SeatKey, voter: Pubkey): (r: Result<State>)
    ensures ck in s.candidacies && ek in s.elections && SeatKey(voter, ek) !in s.ballots && ck.election != ek
            ==> r == Err(ConstraintSeeds)
    ensures ck.election == ek ==> r == Vote(s, ek, ck, voter)
    ensures r.Ok? <==>
      ck in s.candidacies && ek in s.elections && SeatKey(voter, ek) !in s.ballots
      && ck.election == ek && s.elections[ek].stage == Voting
  {
    if ck in s.candidacies && ek in s.elections && SeatKey(voter, ek) !in s.ballots && ck.election != ek
    then Err(ConstraintSeeds)
    else Vote(s, ek, ck, voter)
  }

  /** A second `create_election` with the same (id, signer) fails and leaves
      the first election as it was. */
  lemma CreateTwiceFails(s: State, electionId: string, signer: Pubkey)
    requires CreateElection(s, electionId, signer).Ok?
    ensures var s1 := CreateElection(s, electionId, signer).value;
      && CreateElection(s1, electionId, signer) == Err(AccountInUse)
      && s1.elections[ElectionKey(electionId, signer)].stage == Application
  {
  }

  /** An immediate second `apply` by the same signer to the same election
      fails. Traces.ApplyNeverRepeats extends this to any later attempt. */
  lemma ApplyTwiceFails(s: State, ek: ElectionKey, signer: Pubkey)
    requires Apply(s, ek, signer).Ok?
    ensures Apply(Apply(s, ek, signer).value, ek, signer) == Err(AccountInUse)
  {
  }

  /** The immediately following vote by the same voter in the same election
      fails, whichever candidacy it names, so no count moves.
      Traces.VoteNeverRepeats extends this to any later vote. */
  lemma VoteTwiceFails(s: State, ek: ElectionKey, ck: SeatKey, ck2: SeatKey, voter: Pubkey)
    requires Vote(s, ek, ck, voter).Ok?
    ensures var s1 := Vote(s, ek, ck, voter).value;
      && ck2 in s1.candidacies
      ==> Vote(s1, ek, ck2, voter) == Err(AccountInUse) && VoteChecked(s1, ek, ck2, voter) == Err(AccountInUse)
  {
  }

  /** Closed is terminal for the election record: every instruction aimed at
      a Closed election fails, with the stage error whenever account
      validation lets the body run. */
  lemma ClosedRejectsEverything(s: State, ek: ElectionKey, signer: Pubkey, newStage: ElectionStage, ck: SeatKey)
    requires ek in s.elections && s.elections[ek].stage == Closed
    ensures Apply(s, ek, signer).Err?
    ensures SeatKey(signer, ek) !in s.candidacies ==> Apply(s, ek, signer) == Err(ApplicationIsClosed)
    ensures ChangeStage(s, ek, signer, newStage).Err?
    ensures signer == s.elections[ek].initiator ==> ChangeStage(s, ek, signer, newStage) == Err(VotingEnded)
    ensures Vote(s, ek, ck, signer).Err? && VoteChecked(s, ek, ck, signer).Err?
    ensures ck in s.candidacies && SeatKey(signer, ek) !in s.ballots ==> Vote(s, ek, ck, signer) == Err(NotVotingStage)
  {
  }
}
