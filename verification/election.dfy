/** The election record and its three methods: closing the application
    window, closing the voting window, and the online leader tracker that
    runs after every vote. */
module Election {
  import opened Types

  /** One election. `candidates` counts successful applications and is also
      the id of the most recent candidate; `winnersId`/`winnersVotes` is the
      running leader, (0, 0) while nobody has a vote. */
  datatype ElectionData = ElectionData(
    id: string,
    candidates: nat,
    stage: ElectionStage,
    initiator: Pubkey,
    winnersId: nat,
    winnersVotes: nat)

  /** Request to move to Voting. Allowed only from Application; an
      uncontested election (exactly one candidate) goes straight to Closed.
      The leader fields are not touched, not even in the uncontested case. */
  function CloseApplication(e: ElectionData): (r: Result<ElectionData>)
    ensures r.Ok? <==> e.stage == Application
    ensures r.Err? ==> r.error == ApplicationIsClosed
    ensures r.Ok? ==> (r.value.stage == Closed <==> e.candidates == 1)
    ensures r.Ok? ==> (r.value.stage == Voting <==> e.candidates != 1)
    ensures r.Ok? ==> r.value.(stage := e.stage) == e
  {
    if e.stage != Application then Err(ApplicationIsClosed)
    else if e.candidates == 1 then Ok(e.(stage := Closed))
    else Ok(e.(stage := Voting))
  }

  /** Request to move to Closed. Allowed only from Voting. */
  function CloseVoting(e: ElectionData): (r: Result<ElectionData>)
    ensures r.Ok? <==> e.stage == Voting
    ensures r.Err? ==> r.error == NotVotingStage
    ensures r.Ok? ==> r.value.stage == Closed && r.value.(stage := e.stage) == e
  {
    if e.stage != Voting then Err(NotVotingStage)
    else Ok(e.(stage := Closed))
  }

  /** The O(1) leader tracker, called with the voted candidate's id and its
      vote count after the increment. The incumbent's own vote bumps the
      leading count; anyone else takes the lead only by strictly exceeding
      it, so a tie keeps the incumbent. */
  function RecordVote(e: ElectionData, id: nat, votes: nat): (r: ElectionData)
    // only the leader fields change
    ensures r.(winnersId := e.winnersId, winnersVotes := e.winnersVotes) == e
    // the leading count never decreases
    ensures r.winnersVotes >= e.winnersVotes
    // the incumbent's vote adds exactly one to the leading count
    ensures id == e.winnersId ==> r.winnersId == id && r.winnersVotes == e.winnersVotes + 1
    // a challenger who does not strictly exceed the leader changes nothing
    ensures id != e.winnersId && votes <= e.winnersVotes ==> r == e
    // a challenger who strictly exceeds the leader becomes the leader
    ensures id != e.winnersId && votes > e.winnersVotes ==> r.winnersId == id && r.winnersVotes == votes
  {
    if e.winnersId != id then
      if e.winnersVotes >= votes then e
      else e.(winnersId := id, winnersVotes := votes)
    else
      e.(winnersVotes := e.winnersVotes + 1)
  }
}
