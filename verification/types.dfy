/** Shared vocabulary of the voting program: identities, the election stage
    enumeration, the errors an instruction can fail with, and the result type
    every instruction returns. */
module Types {

  /** A verified account identity (a public key). Signature checking is done
      by the runtime before the program runs, so an identity is just a value. */
  type Pubkey = nat

  /** The three stages of an election. */
  datatype ElectionStage = Application | Voting | Closed

  /** Position of a stage in the forward-only order Application < Voting < Closed. */
  function Rank(stage: ElectionStage): (r: nat)
    ensures r <= 2
    ensures stage == Application <==> r == 0
    ensures stage == Closed <==> r == 2
  {
    match stage
    case Application => 0
    case Voting => 1
    case Closed => 2
  }

  /** Why an instruction failed. The first four are the program's own error
      codes; the rest are raised by the account validation that runs before
      the instruction body. */
  datatype Error =
    | ApplicationIsClosed
    | WrongInitiator
    | NotVotingStage
    | VotingEnded
      /** an `init` account whose address is already taken */
    | AccountInUse
      /** an account read by the instruction that was never created */
    | AccountNotInitialized
      /** an account whose address does not match its declared seeds */
    | ConstraintSeeds

  /** Outcome of one instruction. A transaction is all-or-nothing, so an
      `Err` means the ledger is left exactly as it was. */
  datatype Result<+T> = Ok(value: T) | Err(error: Error)
}
