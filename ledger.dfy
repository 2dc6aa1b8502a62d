/**
 * The ledger contract as the poll engine sees it. The contract, the wallet and the
 * transport are outside the model: every read the engine makes is a total function
 * that either answers or fails, so a gateway is just a bundle of those answers.
 */
module Ledger {

  import opened Wrappers

  /** An account address as the wallet reports it (mixed-case hexadecimal text). */
  type Address = string

  /** The raw tuple the contract's `getPoll(id)` returns; integers are unbounded (uint256). */
  datatype RawPoll = RawPoll(
    question: string,
    options: seq<string>,
    voteCounts: seq<nat>,
    creator: Address,
    isActive: bool,
    expiry: nat,
    createdAt: nat)

  /**
   * The three reads the engine performs. `None` stands for a call that throws: a
   * transport failure, an out-of-range id, or (for `getUserVote`) an account that has
   * not voted, which the contract reports by reverting.
   */
  datatype Gateway = Gateway(
    pollCount: Option<nat>,
    getPoll: nat -> Option<RawPoll>,
    getUserVote: (nat, Address) -> Option<nat>)

  /** What `createPoll(question, options, duration)` is called with. */
  datatype CreateRequest = CreateRequest(question: string, options: seq<string>, duration: nat)

  /** Number.MAX_SAFE_INTEGER: the largest integer a JavaScript number holds exactly. */
  const MaxSafeInteger: nat := 0x1F_FFFF_FFFF_FFFF

  /** BigNumber.toNumber() succeeds exactly on the safe integers and throws otherwise. */
  predicate IsSafe(n: nat)
  {
    n <= MaxSafeInteger
  }
}
