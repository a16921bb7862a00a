/**
 * The ledger service of services/blockchainService.js: one object owning the
 * chain, the pending-vote pool and the difficulty, with vote intake, mining,
 * validation and the read-only queries.
 */
module Service {
  import opened Wrappers
  import opened Runtime
  import opened Chain

  /** What `verifyBlockchain()` reports. */
  datatype ChainCheck = Intact(totalBlocks: nat) | Broken(invalidBlockIndex: nat) {
    /** The report's text; the block number is rendered as the platform renders numbers. */
    function Message(p: Platform): string {
      match this
      case Intact(_) => "Blockchain integrity verified"
      case Broken(i) => "Block " + p.numberToString(i) + " is invalid"
    }
  }

  /** What `findVoteInBlockchain(voteId)` reports when it finds the vote. */
  datatype Location = Location(vote: Vote, blockIndex: nat, blockHash: string)

  /**
   * What `verifyVote(vote)` reports. `IsValid()` is the result object's
   * `isValid` (and `verified`) field, true only for Verified; `Error()` is its
   * `error` field, the message the source attaches to each failure.
   */
  datatype Verification =
    | Verified(blockIndex: nat, blockHash: string)
    | NotInChain
    | HashMismatch
    | BlockInvalid
    | Failed
  {
    predicate IsValid() {
      Verified?
    }

    function Error(): Option<string> {
      match this
      case Verified(_, _) => None
      case NotInChain => Some("Vote not found in blockchain")
      case HashMismatch => Some("Vote hash verification failed")
      case BlockInvalid => Some("Vote block is invalid")
      case Failed => Some("Vote verification failed")
    }
  }

  /**
   * What `getBlockchainStats()` reports. `averageMiningTime` is the rounded
   * mean gap between consecutive block timestamps.
   */
  datatype Stats = Stats(
    totalBlocks: nat,
    totalVotes: nat,
    pendingVotes: nat,
    difficulty: nat,
    averageMiningTime: int,
    chainHeight: int,
    lastBlockHash: Option<string>)

  /**
   * The statistics of a chain with `pending` votes waiting, as a value: the
   * mean gap between consecutive timestamps is taken in its telescoped form,
   * last minus first over the number of gaps.
   */
  function StatsOf(chain: seq<Block>, pending: nat, difficulty: nat): Stats {
    Stats(
      |chain|,
      TotalVotes(chain),
      pending,
      difficulty,
      if |chain| > 1 then RoundHalfUp(chain[|chain| - 1].timestamp - chain[0].timestamp, |chain| - 1) else 0,
      |chain| - 1,
      if chain == [] then None else Some(chain[|chain| - 1].hash))
  }

  /** What `getBlockchainJSON()` returns. */
  datatype Snapshot = Snapshot(chain: seq<Block>, pendingVotes: seq<Vote>, difficulty: nat, stats: Stats)

  /** What the built-in self-test `test()` reports. */
  datatype TestReport = Passed(stats: Stats) | TestFailed(error: string)

  /** The id, voter, candidate and election the self-test uses for its vote. */
  function TestVote(env: Env, timestamp: int, previousHash: string): (v: Vote)
    ensures v.voteId == Some("test-vote-1") && v.nonce == Some(0)
    ensures v.hash == CalculateVoteHash(env, v) && v.hash.Some?
    ensures ValidateVote(env, v) <==> previousHash != "" && v.hash.value != ""
  {
    var unhashed := Vote(Some("test-vote-1"), Some("test-voter-1"), Some("test-candidate-1"),
                         Some("test-election-1"), Some(timestamp), Some(previousHash), None, Some(0));
    VoteHashDependsOnlyOnIdentity(env, unhashed, unhashed.(hash := CalculateVoteHash(env, unhashed)));
    unhashed.(hash := CalculateVoteHash(env, unhashed))
  }

  class BlockchainService {
    /** The platform primitives and JSON.stringify, fixed for the life of the service. */
    const env: Env
    var chain: seq<Block>
    var pendingVotes: seq<Vote>
    var difficulty: nat
    var miningReward: int

    /**
     * The invariant every operation keeps: the chain is linked and starts with
     * a genesis-shaped block; every mined block (all but the genesis block)
     * passes `isBlockValid`; pooled and sealed votes all passed validation; no
     * two votes in the pool, or in one block, share a voteId.
     */
    ghost predicate Valid()
      reads this
    {
      && Linked(chain)
      && (chain != [] ==> GenesisShaped(chain[0]))
      && AllValid(env, pendingVotes)
      && DistinctIds(pendingVotes)
      && (forall i :: 0 <= i < |chain| ==> AllValid(env, chain[i].votes) && DistinctIds(chain[i].votes))
      && (forall i :: 0 < i < |chain| ==> IsBlockValid(env, difficulty, chain, i))
    }

    /** A new service holds no block and no vote, at difficulty 4 and no mining reward. */
    constructor (env: Env)
      ensures Valid()
      ensures this.env == env
      ensures chain == [] && pendingVotes == []
      ensures difficulty == DEFAULT_DIFFICULTY && miningReward == 0
    {
      this.env := env;
      chain := [];
      pendingVotes := [];
      difficulty := DEFAULT_DIFFICULTY;
      miningReward := 0;
    }

    /**
     * `initialize()`: the chain becomes the genesis block alone, stored with
     * the first clock reading and hashed with the second. The pool and the
     * difficulty are left as they were.
     */
    method Initialize(storedTime: int, hashedTime: int) returns (ok: bool)
      requires Valid()
      modifies this`chain
      ensures Valid()
      ensures ok
      ensures chain == [Genesis(env, storedTime, hashedTime)]
      ensures |chain| == 1 && GenesisShaped(chain[0]) && chain[0].timestamp == storedTime
      ensures chain[0].hash == CalculateHash(env, 0, hashedTime, [], "0", 0)
    {
      var genesisBlock := Block(0, storedTime, [], "0", CalculateHash(env, 0, hashedTime, [], "0", 0), 0);
      chain := [genesisBlock];
      ok := true;
    }

    /**
     * `addVote(vote)`: a vote that passes `validateVote` and whose voteId is
     * not already pooled is appended to the pool. Only the pool is searched
     * for duplicates, so a vote already sealed in a block is accepted again.
     * A rejected vote changes nothing.
     */
    method AddVote(vote: Vote) returns (ok: bool)
      requires Valid()
      modifies this`pendingVotes
      ensures Valid()
      ensures ok <==> ValidateVote(env, vote) && !InPool(old(pendingVotes), vote.voteId)
      ensures pendingVotes == if ok then old(pendingVotes) + [vote] else old(pendingVotes)
    {
      if !ValidateVote(env, vote) {
        return false;
      }
      if InPool(pendingVotes, vote.voteId) {
        return false;
      }
      pendingVotes := pendingVotes + [vote];
      ok := true;
    }

    /**
     * The proof-of-work loop of `mineBlock`: try nonces 0, 1, 2, ... until the
     * block hash meets the difficulty. The nonce returned is the last one
     * tried, so it is the least nonce that works. The source's loop has no
     * bound; here a winning nonce is required to exist, which is exactly when
     * the loop ends.
     */
    method MineNonce(index: int, timestamp: int, votes: seq<Vote>, previousHash: string)
      returns (nonce: nat, hash: string)
      requires NonceExists(env, difficulty, index, timestamp, votes, previousHash)
      ensures hash == CalculateHash(env, index, timestamp, votes, previousHash, nonce)
      ensures MeetsDifficulty(hash, difficulty)
      ensures forall k: nat :: k < nonce ==> !NonceWins(env, difficulty, index, timestamp, votes, previousHash, k)
    {
      ghost var winner: nat :| NonceWins(env, difficulty, index, timestamp, votes, previousHash, winner);
      var next: nat := 0;
      hash := CalculateHash(env, index, timestamp, votes, previousHash, next);
      next := next + 1;
      while !MeetsDifficulty(hash, difficulty)
        invariant 1 <= next <= winner + 1
        invariant hash == CalculateHash(env, index, timestamp, votes, previousHash, next - 1)
        invariant forall k: nat :: k < next - 1 ==> !NonceWins(env, difficulty, index, timestamp, votes, previousHash, k)
        decreases winner + 1 - next
      {
        hash := CalculateHash(env, index, timestamp, votes, previousHash, next);
        next := next + 1;
      }
      nonce := next - 1;
    }

    /** The chain has a tail and the pool can be sealed onto it at time `now`. */
    ghost predicate CanMine(now: int)
      reads this
    {
      pendingVotes != [] && chain != [] ==>
        NonceExists(env, difficulty, chain[|chain| - 1].index + 1, now, pendingVotes, chain[|chain| - 1].hash)
    }

    /**
     * `mineBlock()`: with an empty pool, or with no chain to extend (reading
     * the tail's index throws), nothing changes and the result is null.
     * Otherwise the whole pool, in order, is sealed into one new block that
     * links to the tail and carries the least nonce meeting the difficulty;
     * the block is appended, the pool is emptied, and the new block passes
     * `isBlockValid` at once.
     */
    method MineBlock(now: int) returns (mined: Option<Block>)
      requires Valid()
      requires CanMine(now)
      modifies this`chain, this`pendingVotes
      ensures Valid()
      ensures old(pendingVotes) == [] || old(chain) == [] ==>
                mined == None && chain == old(chain) && pendingVotes == old(pendingVotes)
      ensures old(pendingVotes) != [] && old(chain) != [] ==>
                && mined.Some?
                && chain == old(chain) + [mined.value]
                && pendingVotes == []
                && mined.value.index == old(chain)[|old(chain)| - 1].index + 1 == |old(chain)|
                && mined.value.timestamp == now
                && mined.value.votes == old(pendingVotes)
                && mined.value.previousHash == old(chain)[|old(chain)| - 1].hash
                && mined.value.hash == RecomputedHash(env, mined.value)
                && MeetsDifficulty(mined.value.hash, difficulty)
                && mined.value.nonce >= 0
                && (forall k: nat :: k < mined.value.nonce ==>
                      !NonceWins(env, difficulty, mined.value.index, now, mined.value.votes, mined.value.previousHash, k))
                && IsBlockValid(env, difficulty, chain, |chain| - 1)
      ensures TotalVotes(chain) == TotalVotes(old(chain)) + (if mined.Some? then |old(pendingVotes)| else 0)
      ensures forall i :: 0 <= i < |old(chain)| ==>
                IsBlockValid(env, difficulty, chain, i) == IsBlockValid(env, difficulty, old(chain), i)
    {
      if |pendingVotes| == 0 {
        return None;
      }
      var latest := LatestBlock(chain);
      if latest.None? {
        return None;
      }
      var previousBlock := latest.value;
      var newBlockIndex := previousBlock.index + 1;
      var newBlockTimestamp := now;
      var newBlockVotes := pendingVotes;
      pendingVotes := [];
      var nonce, newBlockHash := MineNonce(newBlockIndex, newBlockTimestamp, newBlockVotes, previousBlock.hash);
      var newBlock := Block(newBlockIndex, newBlockTimestamp, newBlockVotes, previousBlock.hash, newBlockHash, nonce);
      ghost var before := chain;
      chain := chain + [newBlock];
      TotalVotesAppend(before, [newBlock]);
      forall i | 0 <= i < |before|
        ensures IsBlockValid(env, difficulty, chain, i) == IsBlockValid(env, difficulty, before, i)
      {
        ValidityIsPrefixStable(env, difficulty, before, [newBlock], i);
      }
      assert TotalVotes([newBlock]) == |newBlockVotes| by {
        assert [newBlock][..0] == [];
      }
      mined := Some(newBlock);
    }

    /**
     * `verifyBlockchain()`: the chain is intact, with `totalBlocks` its length,
     * exactly when every block passes `isBlockValid`; otherwise the report
     * names the first block that fails. Under the invariant every mined block
     * is valid, so only the unmined genesis block can fail.
     */
    method VerifyBlockchain() returns (r: ChainCheck)
      ensures r.Intact? <==> forall i :: 0 <= i < |chain| ==> IsBlockValid(env, difficulty, chain, i)
      ensures r.Intact? ==> r.totalBlocks == |chain|
      ensures r.Broken? ==>
                && r.invalidBlockIndex < |chain|
                && !IsBlockValid(env, difficulty, chain, r.invalidBlockIndex)
                && forall j :: 0 <= j < r.invalidBlockIndex ==> IsBlockValid(env, difficulty, chain, j)
      ensures Valid() ==> r.Intact? || r == Broken(0)
      ensures Valid() && chain != [] ==> (r.Intact? <==> IsBlockValid(env, difficulty, chain, 0))
    {
      for i := 0 to |chain|
        invariant forall j :: 0 <= j < i ==> IsBlockValid(env, difficulty, chain, j)
      {
        if !IsBlockValid(env, difficulty, chain, i) {
          return Broken(i);
        }
      }
      return Intact(|chain|);
    }

    /**
     * `findVoteInBlockchain(voteId)`: the first vote with this voteId in the
     * first block that holds one, with that block's position and hash, or
     * null when no sealed block holds it. The pool is not searched.
     */
    method FindVoteInBlockchain(voteId: Option<string>) returns (r: Option<Location>)
      ensures r.None? <==> forall i :: 0 <= i < |chain| ==> !HasVote(chain[i], voteId)
      ensures r.Some? ==>
                && IsFirstBlockWith(chain, voteId, r.value.blockIndex)
                && r.value.blockHash == chain[r.value.blockIndex].hash
                && IsFirstVoteWith(chain[r.value.blockIndex].votes, voteId, r.value.vote)
    {
      for i := 0 to |chain|
        invariant forall j :: 0 <= j < i ==> !HasVote(chain[j], voteId)
      {
        var block := chain[i];
        var k := 0;
        while k < |block.votes|
          invariant 0 <= k <= |block.votes|
          invariant forall j :: 0 <= j < k ==> block.votes[j].voteId != voteId
        {
          if block.votes[k].voteId == voteId {
            return Some(Location(block.votes[k], i, block.hash));
          }
          k := k + 1;
        }
      }
      return None;
    }

    /**
     * `verifyVote(vote)`, whose `isValid` and `error` fields are
     * `r.IsValid()` and `r.Error()`: fails when the voteId is not sealed; then when
     * recomputing the hash of the vote passed in throws or disagrees with its
     * own `hash` (the sealed copy is not consulted); then when the first block
     * holding the voteId fails `isBlockValid`. Otherwise it reports that block.
     */
    method VerifyVote(vote: Vote) returns (r: Verification)
      ensures r.NotInChain? <==> forall i :: 0 <= i < |chain| ==> !HasVote(chain[i], vote.voteId)
      ensures r.Failed? <==>
                (exists i :: 0 <= i < |chain| && HasVote(chain[i], vote.voteId)) &&
                CalculateVoteHash(env, vote).None?
      ensures r.HashMismatch? <==>
                (exists i :: 0 <= i < |chain| && HasVote(chain[i], vote.voteId)) &&
                CalculateVoteHash(env, vote).Some? && CalculateVoteHash(env, vote) != vote.hash
      ensures r.BlockInvalid? <==>
                CalculateVoteHash(env, vote).Some? && CalculateVoteHash(env, vote) == vote.hash &&
                exists i :: IsFirstBlockWith(chain, vote.voteId, i) && !IsBlockValid(env, difficulty, chain, i)
      ensures r.Verified? ==>
                && CalculateVoteHash(env, vote).Some? && CalculateVoteHash(env, vote) == vote.hash
                && IsFirstBlockWith(chain, vote.voteId, r.blockIndex)
                && IsBlockValid(env, difficulty, chain, r.blockIndex)
                && r.blockHash == chain[r.blockIndex].hash
    {
      var voteInBlock := FindVoteInBlockchain(vote.voteId);
      if voteInBlock.None? {
        return NotInChain;
      }
      var calculatedHash := CalculateVoteHash(env, vote);
      if calculatedHash.None? {
        return Failed;
      }
      if calculatedHash != vote.hash {
        return HashMismatch;
      }
      var blockIndex := voteInBlock.value.blockIndex;
      if !IsBlockValid(env, difficulty, chain, blockIndex) {
        return BlockInvalid;
      }
      forall i | IsFirstBlockWith(chain, vote.voteId, i)
        ensures i == blockIndex
      {
        FirstBlockUnique(chain, vote.voteId, i, blockIndex);
      }
      return Verified(blockIndex, chain[blockIndex].hash);
    }

    /**
     * `getBlockchainStats()`: block and vote counts, the pool size, the
     * difficulty, the height, the tail's hash, and the rounded mean gap between
     * consecutive timestamps, whose sum telescopes to last minus first.
     */
    method GetBlockchainStats() returns (s: Stats)
      ensures s.totalBlocks == |chain| && s.chainHeight == |chain| - 1
      ensures s.totalVotes == TotalVotes(chain)
      ensures s.pendingVotes == |pendingVotes| && s.difficulty == difficulty
      ensures s.lastBlockHash == if chain == [] then None else Some(chain[|chain| - 1].hash)
      ensures |chain| <= 1 ==> s.averageMiningTime == 0
      ensures |chain| > 1 ==>
                s.averageMiningTime == RoundHalfUp(chain[|chain| - 1].timestamp - chain[0].timestamp, |chain| - 1)
      ensures s == StatsOf(chain, |pendingVotes|, difficulty)
    {
      var totalVotes := 0;
      for i := 0 to |chain|
        invariant totalVotes == TotalVotes(chain[..i])
      {
        assert chain[..i + 1][..i] == chain[..i];
        totalVotes := totalVotes + |chain[i].votes|;
      }
      assert chain[..|chain|] == chain;
      var totalBlocks := |chain|;
      var pending := |pendingVotes|;

      var totalMiningTime := 0;
      var i := 1;
      while i < |chain|
        invariant |chain| == 0 ==> totalMiningTime == 0
        invariant |chain| > 0 ==> 1 <= i <= |chain| && totalMiningTime == chain[i - 1].timestamp - chain[0].timestamp
      {
        totalMiningTime := totalMiningTime + (chain[i].timestamp - chain[i - 1].timestamp);
        i := i + 1;
      }
      var averageMiningTime := if totalBlocks > 1 then RoundHalfUp(totalMiningTime, totalBlocks - 1) else 0;
      var lastBlockHash := if totalBlocks > 0 then Some(chain[totalBlocks - 1].hash) else None;
      s := Stats(totalBlocks, totalVotes, pending, difficulty, averageMiningTime, totalBlocks - 1, lastBlockHash);
    }

    /**
     * `getElectionVotes(electionId)`: the sealed votes of that election in
     * chain order, each annotated with its block. A sealed vote without an
     * electionId makes the scan throw, and the result is then empty; under the
     * invariant no such vote exists.
     */
    method GetElectionVotes(electionId: string) returns (r: seq<AnnotatedVote>)
      ensures (exists i, k :: 0 <= i < |chain| && 0 <= k < |chain[i].votes| && chain[i].votes[k].electionId.None?)
                ==> r == []
      ensures (forall i, k :: 0 <= i < |chain| && 0 <= k < |chain[i].votes| ==> chain[i].votes[k].electionId.Some?)
                ==> r == ElectionVotes(chain, electionId)
      ensures Valid() ==> r == ElectionVotes(chain, electionId)
    {
      var electionVotes := [];
      for i := 0 to |chain|
        invariant electionVotes == ElectionVotes(chain[..i], electionId)
        invariant forall j, k :: 0 <= j < i && 0 <= k < |chain[j].votes| ==> chain[j].votes[k].electionId.Some?
      {
        var block := chain[i];
        var k := 0;
        while k < |block.votes|
          invariant 0 <= k <= |block.votes|
          invariant electionVotes ==
                      ElectionVotes(chain[..i], electionId) + BlockElectionVotes(block, block.votes[..k], electionId)
          invariant forall j :: 0 <= j < k ==> block.votes[j].electionId.Some?
        {
          var vote := block.votes[k];
          if vote.electionId.None? {
            return [];
          }
          assert block.votes[..k + 1][..k] == block.votes[..k];
          if vote.electionId.value == electionId {
            electionVotes := electionVotes + [Annotate(block, vote)];
          }
          k := k + 1;
        }
        assert block.votes[..|block.votes|] == block.votes;
        assert chain[..i + 1][..i] == chain[..i];
      }
      assert chain[..|chain|] == chain;
      if Valid() {
        forall i, k | 0 <= i < |chain| && 0 <= k < |chain[i].votes|
          ensures chain[i].votes[k].electionId.Some?
        {
          assert ValidateVote(env, chain[i].votes[k]);
        }
      }
      return electionVotes;
    }

    /** `getBlockchainJSON()`: the chain, the pool, the difficulty and the current statistics. */
    method GetBlockchainJSON() returns (j: Snapshot)
      ensures j.chain == chain && j.pendingVotes == pendingVotes && j.difficulty == difficulty
      ensures j.stats == StatsOf(chain, |pendingVotes|, difficulty)
    {
      var stats := GetBlockchainStats();
      j := Snapshot(chain, pendingVotes, difficulty, stats);
    }
    /**
     * `test()`: initialise, add one test vote linked to the genesis hash, mine,
     * and verify the chain. The mined block always validates, so the self-test
     * passes exactly when the unmined genesis block does; a test vote id left
     * in the pool from before makes the vote intake fail.
     */
    method Test(genesisTime: int, hashTime: int, voteTime: int, mineTime: int) returns (r: TestReport)
      requires Valid()
      requires var g := Genesis(env, genesisTime, hashTime);
               var tv := TestVote(env, voteTime, g.hash);
               ValidateVote(env, tv) && !InPool(pendingVotes, tv.voteId) ==>
                 NonceExists(env, difficulty, 1, mineTime, pendingVotes + [tv], g.hash)
      modifies this`chain, this`pendingVotes
      ensures Valid()
      ensures var g := Genesis(env, genesisTime, hashTime);
              var tv := TestVote(env, voteTime, g.hash);
              var accepted := ValidateVote(env, tv) && !InPool(old(pendingVotes), tv.voteId);
              && (!accepted ==>
                    r == TestFailed("Failed to add test vote") && chain == [g] && pendingVotes == old(pendingVotes))
              && (accepted ==>
                    && |chain| == 2 && chain[0] == g
                    && chain[1].votes == old(pendingVotes) + [tv]
                    && pendingVotes == []
                    && IsBlockValid(env, difficulty, chain, 1)
                    && (r.Passed? <==> IsBlockValid(env, difficulty, [g], 0))
                    && (r.TestFailed? ==> r.error == "Block " + env.platform.numberToString(0) + " is invalid")
                    && (r.Passed? ==> r.stats.totalBlocks == 2 && r.stats.totalVotes == |old(pendingVotes)| + 1)
                    && (r.Passed? ==> r.stats == StatsOf(chain, 0, difficulty)))
    {
      ghost var pool := pendingVotes;
      ghost var g := Genesis(env, genesisTime, hashTime);
      // `initialize()` cannot fail in this model, so its failure branch is absent.
      var initialized := Initialize(genesisTime, hashTime);
      assert chain == [g] && pendingVotes == pool;
      var genesis := LatestBlock(chain).value;
      assert genesis == g;
      var testVote := TestVote(env, voteTime, genesis.hash);
      var voteAdded := AddVote(testVote);
      if !voteAdded {
        return TestFailed("Failed to add test vote");
      }
      assert pendingVotes == pool + [testVote];
      r := MineAndVerify(mineTime);
    }

    /** The second half of `test()`: seal the pool onto the lone genesis block and verify the chain. */
    method MineAndVerify(mineTime: int) returns (r: TestReport)
      requires Valid()
      requires |chain| == 1 && pendingVotes != [] && CanMine(mineTime)
      modifies this`chain, this`pendingVotes
      ensures Valid()
      ensures |chain| == 2 && chain[0] == old(chain[0]) && chain[1].votes == old(pendingVotes) && pendingVotes == []
      ensures IsBlockValid(env, difficulty, chain, 1)
      ensures r.Passed? <==> IsBlockValid(env, difficulty, [chain[0]], 0)
      ensures r.TestFailed? ==> r.error == "Block " + env.platform.numberToString(0) + " is invalid"
      ensures r.Passed? ==> r.stats.totalBlocks == 2 && r.stats.totalVotes == TotalVotes(old(chain)) + |old(pendingVotes)|
      ensures r.Passed? ==> r.stats == StatsOf(chain, 0, difficulty)
    {
      ghost var g := chain[0];
      var minedBlock := MineBlock(mineTime);
      ghost var b := minedBlock.value;
      assert chain == [g, b];
      ValidityIsPrefixStable(env, difficulty, [g], [b], 0);
      var integrityCheck := VerifyBlockchain();
      if integrityCheck.Broken? {
        assert integrityCheck.invalidBlockIndex == 0;
        return TestFailed(integrityCheck.Message(env.platform));
      }
      assert IsBlockValid(env, difficulty, chain, 0);
      var stats := GetBlockchainStats();
      TotalVotesAppend([g], [b]);
      assert TotalVotes([b]) == |b.votes| by {
        assert [b][..0] == [];
      }
      return Passed(stats);
    }

    /**
     * Duplicates are looked for in the pool only: a vote added and sealed can
     * be added again straight away and would then be sealed a second time.
     */
    method SealedVoteCanBePooledAgain(vote: Vote, now: int) returns (first: bool, mined: Option<Block>, second: bool)
      requires Valid()
      requires chain != [] && ValidateVote(env, vote) && !InPool(pendingVotes, vote.voteId)
      requires NonceExists(env, difficulty, |chain|, now, pendingVotes + [vote], chain[|chain| - 1].hash)
      modifies this`chain, this`pendingVotes
      ensures Valid()
      ensures first && mined.Some? && second
      ensures chain != [] && HasVote(chain[|chain| - 1], vote.voteId) && pendingVotes == [vote]
    {
      first := AddVote(vote);
      mined := MineBlock(now);
      assert chain[|chain| - 1].votes[|chain[|chain| - 1].votes| - 1] == vote;
      second := AddVote(vote);
    }
  }
}
