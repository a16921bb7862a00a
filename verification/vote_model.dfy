/**
 * The vote document (models/Vote.js): its fields, the schema's required
 * fields and defaults, and the per-vote hash with its self-check. These are
 * the fields of the per-election vote hash chain.
 */
module VoteModel {
  import opened Wrappers
  import opened Runtime

  /** The values a caller hands to `new Vote({...})`; any of them may be left out. */
  datatype VoteFields = VoteFields(
    voterId: Option<string>,
    candidateId: Option<string>,
    electionId: Option<string>,
    constituency: Option<string>,
    timestamp: Option<int>,
    ipAddress: Option<string>,
    userAgent: Option<string>,
    previousHash: Option<string>,
    hash: Option<string>,
    nonce: Option<int>,
    isVerified: Option<bool>,
    verificationTimestamp: Option<int>)

  /**
   * A vote document that satisfies the schema. Object ids are kept as their
   * `toString()` text and dates as milliseconds since the epoch.
   */
  datatype Vote = Vote(
    voterId: string,
    candidateId: string,
    electionId: string,
    constituency: string,
    timestamp: int,
    ipAddress: Option<string>,
    userAgent: Option<string>,
    previousHash: Option<string>,
    hash: Option<string>,
    nonce: Option<int>,
    isVerified: bool,
    verificationTimestamp: Option<int>)

  /** A schema validation failure, naming the missing required paths in schema order. */
  datatype SchemaError = MissingRequired(paths: seq<string>)

  /** An object-id path passes `required` when a value is present. */
  predicate PresentId(o: Option<string>) {
    o.Some?
  }

  /** A string path passes `required` when it holds a non-empty string. */
  predicate PresentString(o: Option<string>) {
    o.Some? && o.value != ""
  }

  function MissingPaths(f: VoteFields): seq<string> {
    (if PresentId(f.voterId) then [] else ["voterId"]) +
    (if PresentId(f.candidateId) then [] else ["candidateId"]) +
    (if PresentId(f.electionId) then [] else ["electionId"]) +
    (if PresentString(f.constituency) then [] else ["constituency"])
  }

  /**
   * Building a document from its fields: the four required paths must be
   * present; `timestamp` defaults to the creation time `now` and `isVerified`
   * to false; every other field is kept as given.
   */
  function Create(f: VoteFields, now: int): (r: Result<Vote, SchemaError>)
    ensures r.Success? <==>
              PresentId(f.voterId) && PresentId(f.candidateId) &&
              PresentId(f.electionId) && PresentString(f.constituency)
    ensures r.Failure? ==>
              r.error.paths != [] &&
              ("voterId" in r.error.paths <==> f.voterId.None?) &&
              ("candidateId" in r.error.paths <==> f.candidateId.None?) &&
              ("electionId" in r.error.paths <==> f.electionId.None?) &&
              ("constituency" in r.error.paths <==> !PresentString(f.constituency))
    ensures r.Success? ==>
              && Some(r.value.voterId) == f.voterId
              && Some(r.value.candidateId) == f.candidateId
              && Some(r.value.electionId) == f.electionId
              && Some(r.value.constituency) == f.constituency
              && r.value.timestamp == (if f.timestamp.Some? then f.timestamp.value else now)
              && r.value.isVerified == (f.isVerified == Some(true))
              && r.value.previousHash == f.previousHash
              && r.value.hash == f.hash
              && r.value.nonce == f.nonce
              && r.value.ipAddress == f.ipAddress
              && r.value.userAgent == f.userAgent
              && r.value.verificationTimestamp == f.verificationTimestamp
  {
    var missing := MissingPaths(f);
    if missing != [] then
      Failure(MissingRequired(missing))
    else
      Success(Vote(
        f.voterId.value, f.candidateId.value, f.electionId.value, f.constituency.value,
        f.timestamp.GetOr(now), f.ipAddress, f.userAgent, f.previousHash, f.hash, f.nonce,
        f.isVerified.GetOr(false), f.verificationTimestamp))
  }

  /** The text `generateHash` feeds to SHA-256. */
  function HashInput(p: Platform, v: Vote): string {
    v.voterId + v.candidateId + v.electionId + p.toISOString(v.timestamp) +
    StringOrUndefined(v.previousHash) + NumberOrUndefined(p, v.nonce)
  }

  /** `generateHash()`: SHA-256 of the identity fields, finalised with `digest('hex')`. */
  function GenerateHash(p: Platform, v: Vote): string {
    p.sha256.updateDigest(HashInput(p, v))
  }

  /** `verifyHash()`: the stored hash equals a fresh recomputation. */
  predicate VerifyHash(p: Platform, v: Vote) {
    v.hash == Some(GenerateHash(p, v))
  }

  /** Two documents that agree on the six hashed fields hash alike, whatever else differs. */
  lemma HashDependsOnlyOnIdentity(p: Platform, v: Vote, w: Vote)
    requires v.voterId == w.voterId && v.candidateId == w.candidateId
    requires v.electionId == w.electionId && v.timestamp == w.timestamp
    requires v.previousHash == w.previousHash && v.nonce == w.nonce
    ensures GenerateHash(p, v) == GenerateHash(p, w)
  {
  }

  /** Round trip: storing `generateHash()` in `hash` makes `verifyHash()` true. */
  lemma HashRoundTrip(p: Platform, v: Vote)
    ensures VerifyHash(p, v.(hash := Some(GenerateHash(p, v))))
  {
    HashDependsOnlyOnIdentity(p, v, v.(hash := Some(GenerateHash(p, v))));
  }

  /**
   * The verification annotation, and any other change to fields outside the
   * hash, leaves the outcome of `verifyHash()` as it was.
   */
  lemma VerifyHashIgnoresUnhashedFields(
      p: Platform, v: Vote,
      constituency: string, ipAddress: Option<string>, userAgent: Option<string>,
      isVerified: bool, verificationTimestamp: Option<int>)
    ensures VerifyHash(p, v) ==
            VerifyHash(p, v.(constituency := constituency, ipAddress := ipAddress,
                                            userAgent := userAgent, isVerified := isVerified,
                                            verificationTimestamp := verificationTimestamp))
  {
    HashDependsOnlyOnIdentity(p, v,
      v.(constituency := constituency, ipAddress := ipAddress, userAgent := userAgent,
         isVerified := isVerified, verificationTimestamp := verificationTimestamp));
  }
}
