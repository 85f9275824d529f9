# Single-election voting program — Dafny model

This project models the on-chain voting program in
`programs/wsos23_voting_app/src/lib.rs`. The program runs elections.
Each election has three stages: Application, then Voting, then Closed.

- An initiator creates an election.
- Candidates register themselves while the election is in Application. Each gets the next sequential id.
- The initiator moves the election forward. An election with exactly one candidate goes straight from Application to Closed.
- Voters cast one ballot each while the election is in Voting. After every vote, an O(1) tracker updates the running leader. A candidate takes the lead only by strictly passing the current leader.

The model keeps every account the program owns in one immutable `State` with three maps:

- elections, keyed by (election id, initiator);
- candidacies, keyed by (signer, election);
- ballots, keyed by (signer, election).

These keys stand for the program-derived addresses of the accounts. Creating an account whose key already exists fails. Every instruction is a total function from a state to `Result<State>`. An `Err` means the transaction failed, and a failed transaction changes nothing.

Before the body of an instruction runs, its accounts are checked in this order:

1. Every account the instruction reads must exist. Otherwise it fails with `AccountNotInitialized`.
2. Every account the instruction creates must not exist yet. Otherwise it fails with `AccountInUse`.
3. Remaining constraints on the accounts are checked.
4. The `require!` checks in the body run last.

Because of this order, a second ballot in a Closed election fails with `AccountInUse`, not `NotVotingStage`.

Modules:

- `Types`: identities, `ElectionStage` and its forward order, errors, `Result`.
- `Election`: the election record and its three methods: `close_application`, `close_voting` and `record_vote`.
- `Program`: the four instructions, including `vote` exactly as written and `VoteChecked`, the corrected version (see Findings).
- `Invariants`: the ledger invariant and its preservation by each instruction. The invariant says:
  - candidate ids of each election are exactly 1..candidates, with none repeated;
  - the tracked leader holds the maximum count;
  - no votes exist while an election is in Application.
- `Traces`: sequences of instructions. For the program as written, stages only move forward and a Closed election's record is frozen. With votes restricted to their own election (`Traces.Step`), the invariant holds in every reachable ledger and a Closed election's candidacies are frozen too. Applicants get sequential ids in application order.
- `Findings`: the cross-election vote counterexample.
- `Scenarios`: concrete runs — the tie rule, a contested election and an uncontested one.

Notes on the program's behaviour:

- **One candidacy per signer.** The candidacy address is derived from (signer, election) (lib.rs:135), so a signer holds at most one candidacy per election.
- **Duplicates.** Duplicate creations fail with the runtime's account-in-use error (`AccountInUse`).
- **Requesting Application.** This gives `WrongInitiator` only after the Closed check. On a Closed election it gives `VotingEnded`.
- **Uncontested close records no leader.** Line 98 of the source is an expression statement with no effect. So after an uncontested close, the leader fields stay (0, 0).

## Model

| member | source | states |
|---|---|---|
| Election.CloseApplication | programs/wsos23_voting_app/src/lib.rs:94-105 | Succeeds exactly when the stage is Application, else fails with ApplicationIsClosed; the new stage is Closed exactly when there is one candidate, else Voting; nothing but the stage changes |
| Election.CloseVoting | programs/wsos23_voting_app/src/lib.rs:107-111 | Succeeds exactly when the stage is Voting, else fails with NotVotingStage; the result is Closed and nothing else changes |
| Election.RecordVote | programs/wsos23_voting_app/src/lib.rs:113-123 | Only the leader fields change and the leading count never decreases; the incumbent's vote adds exactly one; a challenger at or below the leading count changes nothing (a tie keeps the incumbent); a challenger strictly above becomes leader with its count |
| Program.CreateElection | programs/wsos23_voting_app/src/lib.rs:9-19 | Fails with AccountInUse exactly when (id, signer) is taken; otherwise adds one election with the given id, initiator == signer, candidates 0 and stage Application, leaving every other account unchanged |
| Program.Apply | programs/wsos23_voting_app/src/lib.rs:21-34 | Fails, in this order, when the election is missing, when the signer already applied (AccountInUse), or when the stage is not Application (ApplicationIsClosed); success is exactly the remaining case and adds one to candidates; the new candidacy has id == new candidates, owner signer and 0 votes; nothing else changes |
| Program.ChangeElectionStage | programs/wsos23_voting_app/src/lib.rs:36-54 | Error precedence: non-initiator gives WrongInitiator, then Closed gives VotingEnded, then a request for Application gives WrongInitiator; success exactly for Application to Voting or Voting to Closed by the initiator; success moves strictly forward, touches only the stage, and skips to Closed for one candidate |
| Program.ChangeStage | programs/wsos23_voting_app/src/lib.rs:161-167 | A missing election fails; otherwise the outcome is the stage change on that one record, and every other account is unchanged |
| Program.Vote | programs/wsos23_voting_app/src/lib.rs:56-69 | Fails when an account is missing, when the voter has a ballot in this election (AccountInUse), or when the stage is not Voting (NotVotingStage); success adds exactly one vote to the named candidacy, changes no other candidacy, records the ballot, and updates the leader with the post-increment count |
| Program.VoteChecked | programs/wsos23_voting_app/src/lib.rs:169-180 | A candidacy of another election is rejected with ConstraintSeeds; for a candidacy of the voted election it is exactly Vote; success implies the candidacy belongs to the election |
| Program.CreateTwiceFails | programs/wsos23_voting_app/src/lib.rs:75 | A second creation with the same (id, signer) fails with AccountInUse |
| Program.ApplyTwiceFails | programs/wsos23_voting_app/src/lib.rs:135 | A second application by the same signer to the same election fails with AccountInUse |
| Program.VoteTwiceFails | programs/wsos23_voting_app/src/lib.rs:171 | After a successful vote, the immediately following vote by the same voter in the same election fails with AccountInUse, whatever candidacy it names |
| Program.ClosedRejectsEverything | programs/wsos23_voting_app/src/lib.rs:21-69 | On a Closed election every apply, stage change and vote fails; with ApplicationIsClosed, VotingEnded or NotVotingStage whenever account checks let the body run |
| Invariants.CreatePreservesGood | programs/wsos23_voting_app/src/lib.rs:9-19 | Creating an election preserves the ledger invariant |
| Invariants.ApplyPreservesGood | programs/wsos23_voting_app/src/lib.rs:21-34 | Applying preserves the invariant: ids stay exactly 1..candidates with no repeats, and leaders stay maximal |
| Invariants.ChangeStagePreservesGood | programs/wsos23_voting_app/src/lib.rs:36-54 | Stage changes preserve the invariant |
| Invariants.VoteCheckedPreservesGood | programs/wsos23_voting_app/src/lib.rs:56-69 | A vote within the election preserves the invariant; in particular the leader stays the maximum |
| Invariants.VoteKeepsLeaderMax | programs/wsos23_voting_app/src/lib.rs:113-123 | In each of the three cases of the tracker, with ids from 1 and the post-increment count, the leading count stays equal to the leader's votes and at least every candidacy's votes |
| Invariants.LeaderHoldsMaximum | programs/wsos23_voting_app/src/lib.rs:113-123 | Under the invariant, every candidacy has an id in 1..candidates and at most the leading count, and the candidacy with the leader's id has exactly the leading count |
| Invariants.IdsAreOneToN | programs/wsos23_voting_app/src/lib.rs:28-29 | Under the invariant, the ids carried by an election's candidacies are exactly 1..candidates |
| Traces.StepAgreesWithinElection | programs/wsos23_voting_app/src/lib.rs:56-69 | The as-written and the corrected program take the same step on every instruction except a cross-election vote |
| Traces.RunAgreesWithinElection | programs/wsos23_voting_app/src/lib.rs:56-69 | On any trace whose votes stay within their election, the as-written program reaches the same ledger as the corrected one |
| Traces.RunPreservesGood | programs/wsos23_voting_app/src/lib.rs:9-69 | (votes restricted to their own election, `Traces.Step`) The invariant holds after any sequence of instructions from a good ledger |
| Traces.ReachableGood | programs/wsos23_voting_app/src/lib.rs:9-69 | (votes restricted to their own election, `Traces.Step`) Every ledger reachable from the empty ledger satisfies the invariant |
| Traces.ReachableLeaderIsMax | programs/wsos23_voting_app/src/lib.rs:113-123 | (votes restricted to their own election, `Traces.Step`) In every reachable ledger, each candidacy's count is at most its election's leading count, the leader's candidacy has exactly that count, and ids lie in 1..candidates |
| Traces.StepAdvances | programs/wsos23_voting_app/src/lib.rs:94-111 | (votes restricted to their own election, `Traces.Step`) One instruction never moves a stage backwards, never lowers a count, never removes an account, and never changes a Closed election or its candidacies |
| Traces.OnlyChangeStageMovesStage | programs/wsos23_voting_app/src/lib.rs:36-54 | No instruction other than change_stage alters any election's stage, both in `Traces.Step` and in the program as written (`Traces.StepAsWritten`, cross-election votes included) |
| Traces.RunAdvances | programs/wsos23_voting_app/src/lib.rs:36-54 | (votes restricted to their own election, `Traces.Step`) Over any trace: stages are monotone in Application < Voting < Closed, counts never decrease, and a Closed election and its candidacies stay exactly as they were at closing |
| Traces.StepAsWrittenAdvances | programs/wsos23_voting_app/src/lib.rs:36-69 | For the program as written, one instruction never removes an election, never moves its stage backwards, never lowers its candidate or leading count, and never changes a Closed election's record |
| Traces.RunAsWrittenAdvances | programs/wsos23_voting_app/src/lib.rs:94-111 | For the program as written, over any trace with no restriction on votes: stages are monotone in Application < Voting < Closed, candidate and leading counts never decrease, and a Closed election's record stays as it was closed |
| Traces.ApplyNeverRepeats | programs/wsos23_voting_app/src/lib.rs:135 | Once a signer has applied to an election, any later application by that signer to that election fails with AccountInUse, whatever instructions run in between, for both the as-written and the restricted program |
| Traces.VoteNeverRepeats | programs/wsos23_voting_app/src/lib.rs:171 | Once a voter has cast a ballot in an election, any later vote by that voter in that election fails, whatever instructions run in between and whichever candidacy it names; with AccountInUse whenever the named candidacy exists; for both the as-written and the restricted program |
| Traces.RunAsWrittenKeepsAccounts | programs/wsos23_voting_app/src/lib.rs:9-69 | The program as written never removes an election, a candidacy or a ballot over any trace |
| Traces.ApplicantsGetSequentialIds | programs/wsos23_voting_app/src/lib.rs:21-34 | n distinct new applicants to an open election all succeed; candidates grows by n; the i-th applicant gets id old + i + 1 with 0 votes, in application order; earlier candidacies are untouched |
| Findings.CrossElectionVoteBreaksLeader | programs/wsos23_voting_app/src/lib.rs:173-174 | A ledger that satisfies the invariant (and that the program itself produces, by Findings.LedgerIsReachable) in which a vote cast in one election for another election's candidacy succeeds as written; the vote counts for a candidacy of a Closed election and breaks the invariant, and VoteChecked rejects it |
| Scenarios.TieKeepsIncumbent | programs/wsos23_voting_app/src/lib.rs:114-119 | A leads with 3; B reaching 3 leaves A leading; B reaching 4 becomes leader with 4 |
| Scenarios.ContestedSetup | programs/wsos23_voting_app/src/lib.rs:21-54 | Three applicants get ids 1, 2, 3 and opening the vote gives stage Voting with candidates 3 |
| Scenarios.ContestedVoting | programs/wsos23_voting_app/src/lib.rs:56-69 | Two votes for candidate 1 and one for candidate 2 make candidate 1 the leader with 2; after closing, a new vote fails with NotVotingStage and a repeat voter fails with AccountInUse |
| Scenarios.Uncontested | programs/wsos23_voting_app/src/lib.rs:94-105 | With one applicant, the request for Voting closes the election directly, and the leader fields stay (0, 0) |

## Findings

| source | as written | input that shows it | evidently intended | confidence | as-written member | corrected member |
|---|---|---|---|---|---|---|
| programs/wsos23_voting_app/src/lib.rs:173-174 | `vote` accepts any candidacy account of the program, and `record_vote` updates the voted election with that candidacy's id and count | Election E (initiator 1, candidates 10 and 11) is in Voting. Election F (initiator 2, single candidate 20) was closed uncontested. Voter 30 votes in E for F's candidacy. F's candidate gains a vote after F closed, and E reports its own candidate 1 as leader with a vote it never received | the candidacy account constrained by its seeds ("candidate", owner, election) to the election voted in | not executed; high (no constraint ties the two accounts) | Findings.CrossElectionVoteBreaksLeader | Program.VoteChecked (invariant proved in Invariants.VoteCheckedPreservesGood) |

The trace model `Traces.Step` uses `Program.VoteChecked`. `Traces.RunAgreesWithinElection` shows why the trace lemmas also hold for the program as written: on any trace whose votes name a candidacy of the election voted in, the as-written program reaches the same ledger.

## Left out

- Election.RecordVote: counts are unbounded `nat`. The source adds 1 to `u64` fields at lines 28, 63 and 121, which would overflow at 2^64. Reaching that needs about 2^64 successful instructions. For line 28, that means 2^64 applications to one election, each from a distinct signer. For line 63, it means 2^64 ballots naming one candidacy, i.e. distinct (signer, election) pairs; as written, one signer can supply them, because a vote may name another election's candidacy. For line 121, under `Traces.Step` it means 2^64 ballots in one election. As written, line 119 can copy another election's candidacy count into the leader fields, so it takes 2^64 ballots in total but only two in that election. The overflow is not modelled.
- Program.Apply: `candidates` is unbounded; the `u64` overflow at line 28 is not modelled (see above).
- Program.Vote: `votes` is unbounded; the `u64` overflow at line 63 is not modelled (see above).
- Program.CreateElection: an id that cannot be used as an address seed does not fail in the model. This covers ids longer than 32 bytes.
- Address derivation is abstract: keys are tuples, hash collisions are not considered, and the bump seed is not modelled.
- Rent, lamport payment, the system program and account serialisation are left out. They are runtime plumbing.
- Signature verification is left out. Each instruction takes its signer as an already verified identity.
- Account type and owner checks are left out. Keys of the three maps can only name accounts of the right kind.
- Concurrency is left out. The runtime runs each transaction atomically and serialises writes to an account, so each instruction is one step.
- The `Register` accounts struct (lines 144-152) is left out because no instruction uses it.
- The `WrongPublicKey` error (line 194) is left out because nothing raises it.
- The ballot's `id` field (line 184) is left out because nothing writes it. The ballot keeps the candidate's owner key, which line 64 writes.
- `tests/wsos23_voting_app.ts` is left out. It calls an instruction the program does not have and asserts nothing.
