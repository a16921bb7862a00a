/**
 * The values of the vote ledger (services/blockchainService.js) and the
 * read-only parts of the service: the vote hash and vote validator, the
 * block hash, the block validator, and the reference definitions that the
 * service's queries are proved against.
 */
module Chain {
  import opened Wrappers
  import opened Runtime

  /** The difficulty the service starts with: four leading '0' characters. */
  const DEFAULT_DIFFICULTY: nat := 4

  /**
   * A vote object as the ledger receives it. Any field may be missing
   * (`undefined`); object ids are kept as their `toString()` text and the
   * timestamp as the milliseconds of its Date.
   */
  datatype Vote = Vote(
    voteId: Option<string>,
    voterId: Option<string>,
    candidateId: Option<string>,
    electionId: Option<string>,
    timestamp: Option<int>,
    previousHash: Option<string>,
    hash: Option<string>,
    nonce: Option<int>)

  /** A block of the chain: sealed votes with a back-link and a proof-of-work hash. */
  datatype Block = Block(
    index: int,
    timestamp: int,
    votes: seq<Vote>,
    previousHash: string,
    hash: string,
    nonce: int)

  /**
   * What the service takes from its platform, kept abstract: SHA-256 with its
   * two finalisers, number and date rendering, and `JSON.stringify` of a
   * block's vote list. Every result below holds for any choice of them.
   */
  datatype Env = Env(
    platform: Platform,
    stringify: seq<Vote> -> string)

  /** JavaScript truthiness of a possibly-missing string: present and non-empty. */
  predicate Truthy(o: Option<string>) {
    o.Some? && o.value != ""
  }

  // ---------------------------------------------------------------- vote hash

  /**
   * The text `calculateVoteHash` feeds to SHA-256, or None where building it
   * throws (`toString()` or `toISOString()` on a missing field). A missing
   * previousHash or nonce does not throw; it contributes "undefined".
   */
  function VoteHashInput(env: Env, v: Vote): (r: Option<string>)
    ensures r.Some? <==>
              v.voterId.Some? && v.candidateId.Some? && v.electionId.Some? && v.timestamp.Some?
  {
    if v.voterId.None? || v.candidateId.None? || v.electionId.None? || v.timestamp.None? then
      None
    else
      Some(v.voterId.value + v.candidateId.value + v.electionId.value +
           env.platform.toISOString(v.timestamp.value) +
           StringOrUndefined(v.previousHash) + NumberOrUndefined(env.platform, v.nonce))
  }

  /** `calculateVoteHash(vote)`: SHA-256 finalised with `toString('hex')`; None where it throws. */
  function CalculateVoteHash(env: Env, v: Vote): (h: Option<string>)
    ensures h.None? <==>
              v.voterId.None? || v.candidateId.None? || v.electionId.None? || v.timestamp.None?
  {
    match VoteHashInput(env, v)
    case Some(data) => Some(env.platform.sha256.updateToString(data))
    case None => None
  }

  /** Two votes that agree on the six hashed fields hash alike; voteId does not enter the hash. */
  lemma VoteHashDependsOnlyOnIdentity(env: Env, v: Vote, w: Vote)
    requires v.voterId == w.voterId && v.candidateId == w.candidateId
    requires v.electionId == w.electionId && v.timestamp == w.timestamp
    requires v.previousHash == w.previousHash && v.nonce == w.nonce
    ensures CalculateVoteHash(env, v) == CalculateVoteHash(env, w)
  {
  }

  /** The four fields `validateVote` insists on. */
  predicate HasRequiredFields(v: Vote) {
    Truthy(v.voterId) && Truthy(v.candidateId) && Truthy(v.electionId) && v.timestamp.Some?
  }

  /**
   * `validateVote(vote)`: the checks run in the source's order and the first
   * that fails rejects the vote. It changes nothing.
   */
  function ValidateVote(env: Env, v: Vote): (ok: bool)
    ensures ok <==>
              && HasRequiredFields(v)
              && Truthy(v.hash)
              && Truthy(v.previousHash)
              && CalculateVoteHash(env, v) == v.hash
    ensures ok ==> CalculateVoteHash(env, v).Some?
  {
    if !HasRequiredFields(v) then false
    else if !Truthy(v.hash) then false
    else if !Truthy(v.previousHash) then false
    else
      var calculated := CalculateVoteHash(env, v);
      calculated == v.hash
  }

  // --------------------------------------------------------------- block hash

  /**
   * The text `calculateHash` feeds to SHA-256. In the source the expression
   * `index + timestamp + JSON.stringify(votes) + ...` adds the two numbers
   * before anything becomes text, so only their sum is rendered.
   */
  function BlockHashInput(env: Env, index: int, timestamp: int, votes: seq<Vote>,
                          previousHash: string, nonce: int): string
  {
    env.platform.numberToString(index + timestamp) + env.stringify(votes) + previousHash +
    env.platform.numberToString(nonce)
  }

  /** `calculateHash(index, timestamp, votes, previousHash, nonce)`, finalised with `toString('hex')`. */
  function CalculateHash(env: Env, index: int, timestamp: int, votes: seq<Vote>,
                         previousHash: string, nonce: int): string
  {
    env.platform.sha256.updateToString(BlockHashInput(env, index, timestamp, votes, previousHash, nonce))
  }

  /**
   * The block hash sees index and timestamp only through their sum, and the
   * votes only through their serialisation: two vote lists that serialise
   * alike give the same hash.
   */
  lemma BlockHashSeesIndexPlusTimestamp(env: Env, i: int, t: int, j: int, u: int,
                                        votes: seq<Vote>, others: seq<Vote>, previousHash: string, nonce: int)
    requires i + t == j + u
    requires env.stringify(votes) == env.stringify(others)
    ensures CalculateHash(env, i, t, votes, previousHash, nonce) ==
            CalculateHash(env, j, u, others, previousHash, nonce)
  {
  }

  /** A block's hash recomputed from its own stored fields. */
  function RecomputedHash(env: Env, b: Block): string {
    CalculateHash(env, b.index, b.timestamp, b.votes, b.previousHash, b.nonce)
  }

  /** Nonce n gives the block fields a hash that meets the difficulty. */
  predicate NonceWins(env: Env, difficulty: nat, index: int, timestamp: int,
                      votes: seq<Vote>, previousHash: string, n: int)
  {
    MeetsDifficulty(CalculateHash(env, index, timestamp, votes, previousHash, n), difficulty)
  }

  /** Some nonce gives the block fields a hash that meets the difficulty. */
  ghost predicate NonceExists(env: Env, difficulty: nat, index: int, timestamp: int,
                              votes: seq<Vote>, previousHash: string)
  {
    exists n: nat :: NonceWins(env, difficulty, index, timestamp, votes, previousHash, n)
  }

  // ----------------------------------------------------------- the chain shape

  /** `getLatestBlock()`: the tail of the chain, or `undefined` on an empty chain. */
  function LatestBlock(chain: seq<Block>): (r: Option<Block>)
    ensures r.None? <==> chain == []
    ensures r.Some? ==> r.value in chain
    ensures r.Some? && Linked(chain) ==> r.value.index == |chain| - 1
  {
    if chain == [] then None else Some(chain[|chain| - 1])
  }

  /** Every block's index is its position and every block after the first links to its predecessor's hash. */
  ghost predicate Linked(chain: seq<Block>) {
    && (forall i :: 0 <= i < |chain| ==> chain[i].index == i)
    && (forall i :: 0 < i < |chain| ==> chain[i].previousHash == chain[i - 1].hash)
  }

  /** The fixed fields of the genesis block. */
  predicate GenesisShaped(b: Block) {
    b.index == 0 && b.votes == [] && b.previousHash == "0" && b.nonce == 0
  }

  /**
   * The genesis block `initialize` builds. The source reads the clock twice:
   * once for the stored timestamp and once for the timestamp it hashes.
   */
  function Genesis(env: Env, storedTime: int, hashedTime: int): (b: Block)
    ensures GenesisShaped(b) && b.timestamp == storedTime
    ensures Linked([b])
  {
    Block(0, storedTime, [], "0", CalculateHash(env, 0, hashedTime, [], "0", 0), 0)
  }

  // ---------------------------------------------------------- block validator

  /**
   * `isBlockValid(blockIndex)`: false outside the chain; otherwise the stored
   * hash must equal the recomputation, meet the difficulty, and (past the
   * genesis block) the block must link to its predecessor's hash.
   */
  predicate IsBlockValid(env: Env, difficulty: nat, chain: seq<Block>, i: int) {
    if i < 0 || i >= |chain| then
      false
    else
      var block := chain[i];
      && RecomputedHash(env, block) == block.hash
      && MeetsDifficulty(block.hash, difficulty)
      && (i > 0 ==> block.previousHash == chain[i - 1].hash)
  }

  /**
   * What a passing `isBlockValid(i)` means, with the difficulty test spelled
   * out: i is a position in the chain, the stored hash is the recomputation,
   * its first `difficulty` characters are all '0', and past the genesis block
   * the block links to its predecessor's hash.
   */
  lemma IsBlockValidMeaning(env: Env, difficulty: nat, chain: seq<Block>, i: int)
    ensures IsBlockValid(env, difficulty, chain, i) <==>
              && 0 <= i < |chain|
              && chain[i].hash == RecomputedHash(env, chain[i])
              && difficulty <= |chain[i].hash|
              && (forall k :: 0 <= k < difficulty ==> chain[i].hash[k] == '0')
              && (i > 0 ==> chain[i].previousHash == chain[i - 1].hash)
  {
    if 0 <= i < |chain| {
      MeetsDifficultyMeaning(chain[i].hash, difficulty);
    }
  }

  /**
   * The genesis block is not mined, so it passes the validator only when the
   * two clock readings hash alike and its hash happens to meet the difficulty.
   */
  lemma GenesisValidity(env: Env, difficulty: nat, storedTime: int, hashedTime: int)
    ensures IsBlockValid(env, difficulty, [Genesis(env, storedTime, hashedTime)], 0) <==>
            && CalculateHash(env, 0, storedTime, [], "0", 0) == CalculateHash(env, 0, hashedTime, [], "0", 0)
            && MeetsDifficulty(CalculateHash(env, 0, hashedTime, [], "0", 0), difficulty)
  {
  }

  /**
   * Validity of the genesis block is not guaranteed: for any clock readings
   * there is a platform under which a freshly initialised chain fails
   * `isBlockValid(0)` at the default difficulty.
   */
  lemma GenesisNotAlwaysValid(storedTime: int, hashedTime: int)
    ensures exists env: Env :: !IsBlockValid(env, DEFAULT_DIFFICULTY, [Genesis(env, storedTime, hashedTime)], 0)
  {
    var env := Env(Platform(Sha256(s => "f", s => "f"), n => "", t => ""), vs => "[]");
    assert !MeetsDifficulty("f", DEFAULT_DIFFICULTY);
    assert !IsBlockValid(env, DEFAULT_DIFFICULTY, [Genesis(env, storedTime, hashedTime)], 0);
  }

  /** Whether a block is valid depends only on it and its predecessor: appending blocks changes no earlier verdict. */
  lemma ValidityIsPrefixStable(env: Env, difficulty: nat, chain: seq<Block>, more: seq<Block>, i: int)
    requires 0 <= i < |chain|
    ensures IsBlockValid(env, difficulty, chain + more, i) == IsBlockValid(env, difficulty, chain, i)
  {
    assert (chain + more)[i] == chain[i];
    if i > 0 {
      assert (chain + more)[i - 1] == chain[i - 1];
    }
  }

  /**
   * Overwriting the stored hash of a block whose hash was correct is always
   * detected: that block no longer matches its recomputation, and a successor
   * that linked to it no longer links.
   */
  lemma TamperedHashDetected(env: Env, difficulty: nat, chain: seq<Block>, i: nat, forged: string)
    requires i < |chain|
    requires RecomputedHash(env, chain[i]) == chain[i].hash
    requires forged != chain[i].hash
    ensures !IsBlockValid(env, difficulty, chain[i := chain[i].(hash := forged)], i)
    ensures i + 1 < |chain| && chain[i + 1].previousHash == chain[i].hash ==>
              !IsBlockValid(env, difficulty, chain[i := chain[i].(hash := forged)], i + 1)
  {
    var tampered := chain[i := chain[i].(hash := forged)];
    assert RecomputedHash(env, tampered[i]) == RecomputedHash(env, chain[i]);
    if i + 1 < |chain| {
      assert tampered[i + 1] == chain[i + 1];
    }
  }

  /**
   * Changing the sealed votes of a valid block (to a list that serialises
   * differently) while keeping the stored hash goes undetected by
   * `isBlockValid` only if SHA-256, as finalised, maps two different inputs to
   * the same text: detection rests on collision resistance and nothing else.
   */
  lemma UndetectedVoteTamperIsCollision(env: Env, difficulty: nat, chain: seq<Block>, i: nat, forged: seq<Vote>)
    requires i < |chain|
    requires IsBlockValid(env, difficulty, chain, i)
    requires env.stringify(forged) != env.stringify(chain[i].votes)
    requires IsBlockValid(env, difficulty, chain[i := chain[i].(votes := forged)], i)
    ensures exists x: string, y: string :: x != y && env.platform.sha256.updateToString(x) == env.platform.sha256.updateToString(y)
  {
    var b := chain[i];
    var prefix := env.platform.numberToString(b.index + b.timestamp);
    var suffix := b.previousHash + env.platform.numberToString(b.nonce);
    var x := BlockHashInput(env, b.index, b.timestamp, b.votes, b.previousHash, b.nonce);
    var y := BlockHashInput(env, b.index, b.timestamp, forged, b.previousHash, b.nonce);
    assert x == prefix + env.stringify(b.votes) + suffix;
    assert y == prefix + env.stringify(forged) + suffix;
    ConcatDiffers(prefix, env.stringify(b.votes), env.stringify(forged), suffix);
    var tampered := chain[i := chain[i].(votes := forged)];
    assert tampered[i] == b.(votes := forged);
    assert env.platform.sha256.updateToString(x) == b.hash == env.platform.sha256.updateToString(y);
  }

  /** Different middles make different concatenations. */
  lemma ConcatDiffers(p: string, m: string, n: string, q: string)
    requires m != n
    ensures p + m + q != p + n + q
  {
    if |m| == |n| {
      var k :| 0 <= k < |m| && m[k] != n[k];
      assert (p + m + q)[|p| + k] == m[k];
      assert (p + n + q)[|p| + k] == n[k];
    } else {
      assert |p + m + q| != |p + n + q|;
    }
  }

  // ------------------------------------------------------------- vote lookup

  /** The block holds a vote with this voteId (strict equality, so a missing id matches a missing id). */
  predicate HasVote(b: Block, voteId: Option<string>) {
    exists k :: 0 <= k < |b.votes| && b.votes[k].voteId == voteId
  }

  /** Block i is the first block in chain order that holds the voteId. */
  ghost predicate IsFirstBlockWith(chain: seq<Block>, voteId: Option<string>, i: int) {
    && 0 <= i < |chain|
    && HasVote(chain[i], voteId)
    && forall j :: 0 <= j < i ==> !HasVote(chain[j], voteId)
  }

  /** v is the first vote of the list with the voteId. */
  ghost predicate IsFirstVoteWith(votes: seq<Vote>, voteId: Option<string>, v: Vote) {
    exists k :: 0 <= k < |votes| && votes[k] == v && v.voteId == voteId &&
      forall j :: 0 <= j < k ==> votes[j].voteId != voteId
  }

  /** At most one block is the first to hold a given voteId. */
  lemma FirstBlockUnique(chain: seq<Block>, voteId: Option<string>, i: int, j: int)
    requires IsFirstBlockWith(chain, voteId, i) && IsFirstBlockWith(chain, voteId, j)
    ensures i == j
  {
  }

  // ---------------------------------------------------------------- statistics

  /** The number of sealed votes over all blocks (the source's `reduce`). */
  function TotalVotes(chain: seq<Block>): nat {
    if chain == [] then 0 else TotalVotes(chain[..|chain| - 1]) + |chain[|chain| - 1].votes|
  }

  /** Sealed-vote counts add up over concatenated chains. */
  lemma {:induction false} TotalVotesAppend(a: seq<Block>, b: seq<Block>)
    ensures TotalVotes(a + b) == TotalVotes(a) + TotalVotes(b)
    decreases |b|
  {
    if b != [] {
      assert (a + b)[..|a + b| - 1] == a + b[..|b| - 1];
      TotalVotesAppend(a, b[..|b| - 1]);
    } else {
      assert a + b == a;
    }
  }

  /**
   * `Math.round(a / b)` for a positive divisor: the nearest integer, halves
   * rounded up, computed on the exact quotient.
   */
  function RoundHalfUp(a: int, b: int): (r: int)
    requires b > 0
    ensures 2 * b * r - b <= 2 * a < 2 * b * r + b
  {
    var q := (2 * a + b) / (2 * b);
    assert 2 * a + b == 2 * b * q + (2 * a + b) % (2 * b);
    q
  }

  // ------------------------------------------------------------ election votes

  /** A vote of the election query, with its block's index, hash and timestamp attached. */
  datatype AnnotatedVote = AnnotatedVote(vote: Vote, blockIndex: int, blockHash: string, blockTimestamp: int)

  function Annotate(b: Block, v: Vote): AnnotatedVote {
    AnnotatedVote(v, b.index, b.hash, b.timestamp)
  }

  /** The annotated votes of `votes` (a prefix of block b's) whose electionId is e, in order. */
  function BlockElectionVotes(b: Block, votes: seq<Vote>, e: string): seq<AnnotatedVote> {
    if votes == [] then []
    else
      var last := votes[|votes| - 1];
      BlockElectionVotes(b, votes[..|votes| - 1], e) +
      (if last.electionId == Some(e) then [Annotate(b, last)] else [])
  }

  /** Reference definition of `getElectionVotes(e)`: matching sealed votes in chain order. */
  function ElectionVotes(chain: seq<Block>, e: string): seq<AnnotatedVote> {
    if chain == [] then []
    else
      var last := chain[|chain| - 1];
      ElectionVotes(chain[..|chain| - 1], e) + BlockElectionVotes(last, last.votes, e)
  }

  /** Within a block: an annotated vote is listed iff it is one of the block's votes for e. */
  lemma {:induction false} BlockElectionVotesMembership(b: Block, votes: seq<Vote>, e: string, x: AnnotatedVote)
    ensures x in BlockElectionVotes(b, votes, e) <==>
            exists k :: 0 <= k < |votes| && votes[k].electionId == Some(e) && x == Annotate(b, votes[k])
    decreases |votes|
  {
    if votes != [] {
      var init := votes[..|votes| - 1];
      BlockElectionVotesMembership(b, init, e, x);
      if exists k :: 0 <= k < |votes| && votes[k].electionId == Some(e) && x == Annotate(b, votes[k]) {
        var k :| 0 <= k < |votes| && votes[k].electionId == Some(e) && x == Annotate(b, votes[k]);
        if k < |init| {
          assert init[k] == votes[k];
        }
      }
      if exists k :: 0 <= k < |init| && init[k].electionId == Some(e) && x == Annotate(b, init[k]) {
        var k :| 0 <= k < |init| && init[k].electionId == Some(e) && x == Annotate(b, init[k]);
        assert votes[k] == init[k];
      }
    }
  }

  /** Everything the election query lists is a sealed vote of election e, annotated with its block. */
  lemma {:induction false} ElectionVotesSound(chain: seq<Block>, e: string, x: AnnotatedVote)
    requires x in ElectionVotes(chain, e)
    ensures exists i, k :: 0 <= i < |chain| && 0 <= k < |chain[i].votes| &&
              chain[i].votes[k].electionId == Some(e) && x == Annotate(chain[i], chain[i].votes[k])
    decreases |chain|
  {
    var init := chain[..|chain| - 1];
    var last := chain[|chain| - 1];
    if x in ElectionVotes(init, e) {
      ElectionVotesSound(init, e, x);
      var i, k :| 0 <= i < |init| && 0 <= k < |init[i].votes| &&
        init[i].votes[k].electionId == Some(e) && x == Annotate(init[i], init[i].votes[k]);
      assert chain[i] == init[i];
    } else {
      assert x in BlockElectionVotes(last, last.votes, e);
      BlockElectionVotesMembership(last, last.votes, e, x);
      var k :| 0 <= k < |last.votes| && last.votes[k].electionId == Some(e) && x == Annotate(last, last.votes[k]);
      assert chain[|chain| - 1] == last;
    }
  }

  /** Every sealed vote of election e is listed by the election query, annotated with its block. */
  lemma {:induction false} ElectionVotesComplete(chain: seq<Block>, e: string, i: int, k: int)
    requires 0 <= i < |chain| && 0 <= k < |chain[i].votes| && chain[i].votes[k].electionId == Some(e)
    ensures Annotate(chain[i], chain[i].votes[k]) in ElectionVotes(chain, e)
    decreases |chain|
  {
    var init := chain[..|chain| - 1];
    var last := chain[|chain| - 1];
    var x := Annotate(chain[i], chain[i].votes[k]);
    if i == |chain| - 1 {
      BlockElectionVotesMembership(last, last.votes, e, x);
    } else {
      assert init[i] == chain[i];
      ElectionVotesComplete(init, e, i, k);
    }
  }

  /**
   * The election query lists exactly the sealed votes of election e, each
   * annotated with its own block.
   */
  lemma ElectionVotesMembership(chain: seq<Block>, e: string, x: AnnotatedVote)
    ensures x in ElectionVotes(chain, e) <==>
            exists i, k :: 0 <= i < |chain| && 0 <= k < |chain[i].votes| &&
              chain[i].votes[k].electionId == Some(e) && x == Annotate(chain[i], chain[i].votes[k])
  {
    if x in ElectionVotes(chain, e) {
      ElectionVotesSound(chain, e, x);
    }
    if exists i, k :: 0 <= i < |chain| && 0 <= k < |chain[i].votes| &&
         chain[i].votes[k].electionId == Some(e) && x == Annotate(chain[i], chain[i].votes[k]) {
      var i, k :| 0 <= i < |chain| && 0 <= k < |chain[i].votes| &&
        chain[i].votes[k].electionId == Some(e) && x == Annotate(chain[i], chain[i].votes[k]);
      ElectionVotesComplete(chain, e, i, k);
    }
  }

  /** The election query of a longer chain extends the shorter chain's answer, in chain order. */
  lemma {:induction false} ElectionVotesAppend(a: seq<Block>, b: seq<Block>, e: string)
    ensures ElectionVotes(a + b, e) == ElectionVotes(a, e) + ElectionVotes(b, e)
    decreases |b|
  {
    if b == [] {
      assert a + b == a;
    } else {
      var c, init, last := a + b, b[..|b| - 1], b[|b| - 1];
      assert c[..|c| - 1] == a + init;
      assert c[|c| - 1] == last;
      ElectionVotesAppend(a, init, e);
      calc {
        ElectionVotes(c, e);
        ElectionVotes(a + init, e) + BlockElectionVotes(last, last.votes, e);
        (ElectionVotes(a, e) + ElectionVotes(init, e)) + BlockElectionVotes(last, last.votes, e);
        ElectionVotes(a, e) + (ElectionVotes(init, e) + BlockElectionVotes(last, last.votes, e));
        ElectionVotes(a, e) + ElectionVotes(b, e);
      }
    }
  }

  // ----------------------------------------------------------- pool invariants

  /** Every vote of the list passes `validateVote`. */
  ghost predicate AllValid(env: Env, votes: seq<Vote>) {
    forall k :: 0 <= k < |votes| ==> ValidateVote(env, votes[k])
  }

  /** No two votes of the list share a voteId. */
  ghost predicate DistinctIds(votes: seq<Vote>) {
    forall j, k :: 0 <= j < k < |votes| ==> votes[j].voteId != votes[k].voteId
  }

  /** The pool already holds a vote with this voteId (`pendingVotes.find(...)`). */
  predicate InPool(pool: seq<Vote>, voteId: Option<string>) {
    exists k :: 0 <= k < |pool| && pool[k].voteId == voteId
  }
}
