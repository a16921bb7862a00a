/**
 * How the vote document of models/Vote.js meets the ledger: both hash the
 * same six fields in the same order, so with the same SHA-256 finaliser a
 * document hashed by `generateHash` passes the ledger's hash check.
 */
module VoteBridge {
  import opened Wrappers
  import opened Runtime
  import VoteModel
  import opened Chain

  /** The ledger's view of a vote document; the document has no voteId field, so the caller names one. */
  function FromDocument(d: VoteModel.Vote, voteId: Option<string>): (v: Vote)
    ensures v.voteId == voteId && v.hash == d.hash
  {
    Vote(voteId, Some(d.voterId), Some(d.candidateId), Some(d.electionId), Some(d.timestamp),
         d.previousHash, d.hash, d.nonce)
  }

  /** The two finalisers, `toString('hex')` and `digest('hex')`, give the same text for every input. */
  ghost predicate FinalisersAgree(sha: Sha256) {
    forall s :: sha.updateToString(s) == sha.updateDigest(s)
  }

  /** `calculateVoteHash` and `generateHash` concatenate the same fields in the same order. */
  lemma SameHashInput(env: Env, d: VoteModel.Vote, voteId: Option<string>)
    ensures VoteHashInput(env, FromDocument(d, voteId)) == Some(VoteModel.HashInput(env.platform, d))
  {
  }

  /** With agreeing finalisers the ledger recomputes exactly the document's own hash. */
  lemma HashesAgree(env: Env, d: VoteModel.Vote, voteId: Option<string>)
    requires FinalisersAgree(env.platform.sha256)
    ensures CalculateVoteHash(env, FromDocument(d, voteId)) ==
            Some(VoteModel.GenerateHash(env.platform, d))
  {
    SameHashInput(env, d, voteId);
  }

  /**
   * A document with non-empty ids and previousHash, whose hash was set by
   * `generateHash`, passes `validateVote` once the finalisers agree.
   */
  lemma GeneratedVotePassesValidation(env: Env, d: VoteModel.Vote, voteId: Option<string>)
    requires FinalisersAgree(env.platform.sha256)
    requires d.voterId != "" && d.candidateId != "" && d.electionId != ""
    requires Truthy(d.previousHash)
    requires VoteModel.GenerateHash(env.platform, d) != ""
    requires d.hash == Some(VoteModel.GenerateHash(env.platform, d))
    ensures ValidateVote(env, FromDocument(d, voteId))
  {
    HashesAgree(env, d, voteId);
  }

  /**
   * Conversely, a document that passes both its own `verifyHash` and the
   * ledger's `validateVote` shows the two finalisers agreeing on its hash input:
   * the check depends on which finaliser each side uses.
   */
  lemma BothChecksNeedAgreeingFinalisers(env: Env, d: VoteModel.Vote, voteId: Option<string>)
    requires ValidateVote(env, FromDocument(d, voteId))
    requires VoteModel.VerifyHash(env.platform, d)
    ensures env.platform.sha256.updateToString(VoteModel.HashInput(env.platform, d)) ==
            env.platform.sha256.updateDigest(VoteModel.HashInput(env.platform, d))
  {
    SameHashInput(env, d, voteId);
  }
}
