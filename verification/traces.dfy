/** Sequences of instructions. Each instruction is its own transaction: one
    that fails leaves the ledger unchanged and the next one runs on the same
    state. `Step` is the program with the vote instruction's candidacy
    constrained to its own election; `StepAsWritten` is the program exactly
    as written, and the two agree on every trace whose votes name a
    candidacy of the election voted in. */
module Traces {
  import opened Types
  import opened Election
  import opened Program
  import opened Invariants

  /** One instruction with its arguments and its verified signer. */
  datatype Op =
    | CreateElectionOp(electionId: string, signer: Pubkey)
    | ApplyOp(election: ElectionKey, signer: Pubkey)
    | ChangeStageOp(election: ElectionKey, signer: Pubkey, newStage: ElectionStage)
    | VoteOp(election: ElectionKey, candidacy: SeatKey, signer: Pubkey)

  function Step(s: State, op: Op): Result<State> {
    match op
    case CreateElectionOp(id, signer) => CreateElection(s, id, signer)
    case ApplyOp(ek, signer) => Apply(s, ek, signer)
    case ChangeStageOp(ek, signer, stage) => ChangeStage(s, ek, signer, stage)
    case VoteOp(ek, ck, signer) => VoteChecked(s, ek, ck, signer)
  }

  function StepAsWritten(s: State, op: Op): Result<State> {
    match op
    case VoteOp(ek, ck, signer) => Vote(s, ek, ck, signer)
    case _ => Step(s, op)
  }

  /** The ledger after a transaction: its new state, or the old one if it failed. */
  function Commit(s: State, r: Result<State>): State {
    if r.Ok? then r.value else s
  }

  function Run(s: State, ops: seq<Op>): State
    decreases |ops|
  {
    if |ops| == 0 then s else Run(Commit(s, Step(s, ops[0])), ops[1..])
  }

  function RunAsWritten(s: State, ops: seq<Op>): State
    decreases |ops|
  {
    if |ops| == 0 then s else RunAsWritten(Commit(s, StepAsWritten(s, ops[0])), ops[1..])
  }

  /** A vote that names a candidacy of the election it is cast in. */
  predicate VotesWithinElection(op: Op) {
    op.VoteOp? ==> op.candidacy.election == op.election
  }

  /** The checked and the as-written program take the same step on every
      instruction other than a cross-election vote. */
  lemma StepAgreesWithinElection(s: State, op: Op)
    requires VotesWithinElection(op)
    ensures StepAsWritten(s, op) == Step(s, op)
  {
  }

  /** On a trace whose votes stay within their election, the program as
      written reaches the same ledger as the checked one, so every trace
      property below holds of it too. */
  lemma {:induction false} RunAgreesWithinElection(s: State, ops: seq<Op>)
    requires forall i | 0 <= i < |ops| :: VotesWithinElection(ops[i])
    ensures RunAsWritten(s, ops) == Run(s, ops)
    decreases |ops|
  {
    if |ops| > 0 {
      StepAgreesWithinElection(s, ops[0]);
      RunAgreesWithinElection(Commit(s, Step(s, ops[0])), ops[1..]);
    }
  }

  lemma StepPreservesGood(s: State, op: Op)
    requires Good(s)
    ensures Good(Commit(s, Step(s, op)))
  {
    if Step(s, op).Ok? {
      match op
      case CreateElectionOp(id, signer) => CreatePreservesGood(s, id, signer);
      case ApplyOp(ek, signer) => ApplyPreservesGood(s, ek, signer);
      case ChangeStageOp(ek, signer, stage) => ChangeStagePreservesGood(s, ek, signer, stage);
      case VoteOp(ek, ck, signer) => VoteCheckedPreservesGood(s, ek, ck, signer);
    }
  }

  /** The invariant holds after every trace from a good state. */
  lemma {:induction false} RunPreservesGood(s: State, ops: seq<Op>)
    requires Good(s)
    ensures Good(Run(s, ops))
    decreases |ops|
  {
    if |ops| > 0 {
      StepPreservesGood(s, ops[0]);
      RunPreservesGood(Commit(s, Step(s, ops[0])), ops[1..]);
    }
  }

  /** In every ledger `Step` reaches, each election's tracked leader holds the
      maximal vote count and its candidates carry the ids 1..candidates. */
  lemma ReachableLeaderIsMax(ops: seq<Op>, ek: ElectionKey, ck: SeatKey)
    requires var s := Run(Genesis, ops); ek in s.elections && ck in s.candidacies && ck.election == ek
    ensures var s := Run(Genesis, ops);
      && s.candidacies[ck].votes <= s.elections[ek].winnersVotes
      && (s.candidacies[ck].id == s.elections[ek].winnersId ==> s.candidacies[ck].votes == s.elections[ek].winnersVotes)
      && 1 <= s.candidacies[ck].id <= s.elections[ek].candidates
  {
    ReachableGood(ops);
    LeaderHoldsMaximum(Run(Genesis, ops), ek, ck);
  }

  /** Every ledger reachable from genesis satisfies the invariant. */
  lemma ReachableGood(ops: seq<Op>)
    ensures Good(Run(Genesis, ops))
  {
    GenesisGood();
    RunPreservesGood(Genesis, ops);
  }

  /** How one ledger can follow another: no election or candidacy
      disappears, stages only move forward, counts never decrease, and a
      Closed election and its candidacies are frozen. */
  ghost predicate Advances(s: State, s': State) {
    && (forall ek | ek in s.elections ::
          && ek in s'.elections
          && Rank(s.elections[ek].stage) <= Rank(s'.elections[ek].stage)
          && s.elections[ek].candidates <= s'.elections[ek].candidates
          && s.elections[ek].winnersVotes <= s'.elections[ek].winnersVotes
          && (s.elections[ek].stage == Closed ==> s'.elections[ek] == s.elections[ek]))
    && (forall ck | ck in s.candidacies ::
          && ck in s'.candidacies
          && s.candidacies[ck].votes <= s'.candidacies[ck].votes
          && (ck.election in s.elections && s.elections[ck.election].stage == Closed
              ==> s'.candidacies[ck] == s.candidacies[ck]))
    && s.ballots.Keys <= s'.ballots.Keys
  }

  lemma StepAdvances(s: State, op: Op)
    ensures Advances(s, Commit(s, Step(s, op)))
  {
  }

  /** Only a stage change moves a stage, in the checked program and in the
      program as written alike. */
  lemma OnlyChangeStageMovesStage(s: State, op: Op, ek: ElectionKey)
    requires !op.ChangeStageOp? && ek in s.elections
    ensures ek in Commit(s, Step(s, op)).elections
    ensures Commit(s, Step(s, op)).elections[ek].stage == s.elections[ek].stage
    ensures ek in Commit(s, StepAsWritten(s, op)).elections
    ensures Commit(s, StepAsWritten(s, op)).elections[ek].stage == s.elections[ek].stage
  {
  }

  lemma AdvancesTransitive(s1: State, s2: State, s3: State)
    requires Advances(s1, s2) && Advances(s2, s3)
    ensures Advances(s1, s3)
  {
  }

  /** Over any trace of `Step` stages never move backwards, counts never
      decrease, and a Closed election and its candidacies stay exactly as
      they were closed. */
  lemma {:induction false} RunAdvances(s: State, ops: seq<Op>)
    ensures Advances(s, Run(s, ops))
    decreases |ops|
  {
    if |ops| == 0 {
    } else {
      var s1 := Commit(s, Step(s, ops[0]));
      StepAdvances(s, ops[0]);
      RunAdvances(s1, ops[1..]);
      AdvancesTransitive(s, s1, Run(s1, ops[1..]));
    }
  }

  /** How the election records of one ledger can follow another under the
      program as written: no election disappears, stages only move forward,
      candidate and leading counts never decrease, and a Closed election's
      record is frozen. (Its candidacies are not: see Findings.) */
  ghost predicate ElectionsAdvance(s: State, s': State) {
    forall ek | ek in s.elections ::
      && ek in s'.elections
      && Rank(s.elections[ek].stage) <= Rank(s'.elections[ek].stage)
      && s.elections[ek].candidates <= s'.elections[ek].candidates
      && s.elections[ek].winnersVotes <= s'.elections[ek].winnersVotes
      && (s.elections[ek].stage == Closed ==> s'.elections[ek] == s.elections[ek])
  }

  lemma StepAsWrittenAdvances(s: State, op: Op)
    ensures ElectionsAdvance(s, Commit(s, StepAsWritten(s, op)))
  {
  }

  /** Over any trace of the program as written, with no restriction on
      votes, stages never move backwards and a Closed election record stays
      exactly as it was closed. */
  lemma {:induction false} RunAsWrittenAdvances(s: State, ops: seq<Op>)
    ensures ElectionsAdvance(s, RunAsWritten(s, ops))
    decreases |ops|
  {
    if |ops| > 0 {
      var s1 := Commit(s, StepAsWritten(s, ops[0]));
      StepAsWrittenAdvances(s, ops[0]);
      RunAsWrittenAdvances(s1, ops[1..]);
    }
  }

  /** Once a signer has applied to an election, every later application by
      that signer to that election fails, whatever runs in between. */
  lemma ApplyNeverRepeats(s: State, ek: ElectionKey, signer: Pubkey, ops: seq<Op>)
    requires Apply(s, ek, signer).Ok?
    ensures Apply(Run(Apply(s, ek, signer).value, ops), ek, signer) == Err(AccountInUse)
    ensures Apply(RunAsWritten(Apply(s, ek, signer).value, ops), ek, signer) == Err(AccountInUse)
  {
    RunAdvances(Apply(s, ek, signer).value, ops);
    RunAsWrittenKeepsAccounts(Apply(s, ek, signer).value, ops);
  }

  /** Once a voter has cast a ballot in an election, every later vote by
      that voter in that election fails, whatever runs in between and
      whichever candidacy it names. */
  lemma VoteNeverRepeats(s: State, ek: ElectionKey, ck: SeatKey, ck2: SeatKey, voter: Pubkey, ops: seq<Op>)
    requires Vote(s, ek, ck, voter).Ok?
    ensures var s' := RunAsWritten(Vote(s, ek, ck, voter).value, ops);
      && Vote(s', ek, ck2, voter).Err?
      && (ck2 in s'.candidacies ==> Vote(s', ek, ck2, voter) == Err(AccountInUse))
    ensures var s' := Run(Vote(s, ek, ck, voter).value, ops);
      && VoteChecked(s', ek, ck2, voter).Err?
      && (ck2 in s'.candidacies ==> VoteChecked(s', ek, ck2, voter) == Err(AccountInUse))
  {
    RunAdvances(Vote(s, ek, ck, voter).value, ops);
    RunAsWrittenKeepsAccounts(Vote(s, ek, ck, voter).value, ops);
  }

  /** The program as written never removes an election, a candidacy or a
      ballot. */
  lemma {:induction false} RunAsWrittenKeepsAccounts(s: State, ops: seq<Op>)
    ensures s.elections.Keys <= RunAsWritten(s, ops).elections.Keys
    ensures s.candidacies.Keys <= RunAsWritten(s, ops).candidacies.Keys
    ensures s.ballots.Keys <= RunAsWritten(s, ops).ballots.Keys
    decreases |ops|
  {
    if |ops| > 0 {
      RunAsWrittenKeepsAccounts(Commit(s, StepAsWritten(s, ops[0])), ops[1..]);
    }
  }

  /** The trace of `apply` calls by each of `signers`, in order. */
  function ApplyOps(ek: ElectionKey, signers: seq<Pubkey>): (ops: seq<Op>)
    ensures |ops| == |signers|
    ensures forall i | 0 <= i < |signers| :: ops[i] == ApplyOp(ek, signers[i])
  {
    if |signers| == 0 then [] else [ApplyOp(ek, signers[0])] + ApplyOps(ek, signers[1..])
  }

  /** Distinct new applicants to an open election all succeed and receive
      the next ids in application order, each with no votes. */
  lemma {:induction false} ApplicantsGetSequentialIds(s: State, ek: ElectionKey, signers: seq<Pubkey>)
    requires ek in s.elections && s.elections[ek].stage == Application
    requires forall i, j | 0 <= i < j < |signers| :: signers[i] != signers[j]
    requires forall i | 0 <= i < |signers| :: SeatKey(signers[i], ek) !in s.candidacies
    ensures var s' := Run(s, ApplyOps(ek, signers));
      && ek in s'.elections
      && s'.elections[ek].candidates == s.elections[ek].candidates + |signers|
      && s'.elections[ek].stage == Application
      && forall i | 0 <= i < |signers| ::
           && SeatKey(signers[i], ek) in s'.candidacies
           && s'.candidacies[SeatKey(signers[i], ek)]
              == CandidateData(s.elections[ek].candidates + i + 1, signers[i], 0)
    // earlier candidacies are untouched
    ensures var s' := Run(s, ApplyOps(ek, signers));
      forall ck | ck in s.candidacies :: ck in s'.candidacies && s'.candidacies[ck] == s.candidacies[ck]
    decreases |signers|
  {
    if |signers| > 0 {
      var ops := ApplyOps(ek, signers);
      var s1 := Commit(s, Step(s, ops[0]));
      assert Step(s, ops[0]) == Apply(s, ek, signers[0]);
      assert ops[1..] == ApplyOps(ek, signers[1..]);
      var rest := signers[1..];
      ApplicantsGetSequentialIds(s1, ek, rest);
      var s' := Run(s1, ops[1..]);
      assert Run(s, ops) == s';
      forall i | 0 <= i < |signers|
        ensures SeatKey(signers[i], ek) in s'.candidacies
        ensures s'.candidacies[SeatKey(signers[i], ek)] == CandidateData(s.elections[ek].candidates + i + 1, signers[i], 0)
      {
        if i > 0 {
          assert signers[i] == rest[i - 1];
        }
      }
    }
  }
}
