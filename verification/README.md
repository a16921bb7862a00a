# Vote ledger: a verified Dafny model

This project models the in-memory vote ledger of a blockchain voting system:
the `BlockchainService` class (`services/blockchainService.js`) and the vote
document's hash (`models/Vote.js`). The service owns a chain of blocks, a
pool of pending votes and a mining difficulty. Votes are checked and pooled
by `addVote`. `mineBlock` seals the whole pool into one block found by a
proof-of-work nonce search and appends it to the chain. The chain is
re-checked by `isBlockValid` and `verifyBlockchain`. Four read-only queries
report on it: vote lookup, vote verification, statistics and per-election
listings.

Files and modules:

- `wrappers.dfy` (`Wrappers`): `Option` for `undefined`/`null`, and `Result`.
- `runtime.dfy` (`Runtime`): the platform primitives, kept abstract. These are SHA-256 with its two finalisers (`toString('hex')` and `digest('hex')`), `String(number)` and `toISOString`. It also holds what `undefined` adds to a concatenation and the `startsWith('0'.repeat(d))` difficulty test.
- `vote_model.dfy` (`VoteModel`): the vote document's schema, `generateHash` and `verifyHash`.
- `chain.dfy` (`Chain`): the ledger's values and its pure operations. These are `calculateVoteHash`, `validateVote`, `calculateHash`, `getLatestBlock` and `isBlockValid`. It also holds the reference definitions the queries are proved against, and the lemmas about them.
- `service.dfy` (`Service`): the class `BlockchainService` with fields `chain`, `pendingVotes`, `difficulty` and `miningReward`. State-changing methods (`Initialize`, `AddVote`, `MineBlock`, `Test`) carry `modifies` clauses that name exactly the fields they assign. They keep the invariant `Valid()`: blocks sit at their own index, each block links to its predecessor's hash, the first block is genesis-shaped, every block after it passes `isBlockValid`, every pooled or sealed vote passed `validateVote`, and voteIds are distinct within the pool and within each block.
- `vote_bridge.dfy` (`VoteBridge`): the document's hash and the ledger's vote hash, side by side.

Behaviour of the code that the model keeps, including choices a stricter ledger would make differently:

- The block hash input is `index + timestamp + JSON.stringify(votes) + previousHash + nonce`. JavaScript adds `index` and `timestamp` as numbers before anything becomes text, so only their sum enters the hash. Likewise the votes enter only through their serialisation (`Chain.BlockHashSeesIndexPlusTimestamp`).
- The ledger finalises SHA-256 with `.update(data).toString('hex')`, while the document uses `.digest('hex')`. Both are separate abstract functions. The bridge lemmas need them to agree, and `VoteBridge.BothChecksNeedAgreeingFinalisers` shows why.
- The genesis block is not mined. It reads the clock twice: once for the stored timestamp and once for the hashed one. So `isBlockValid(0)` and a passing `verifyBlockchain` are not guaranteed (`Chain.GenesisValidity`, `Chain.GenesisNotAlwaysValid`). The self-test `test()` passes exactly when the genesis block happens to validate.
- `addVote` looks for duplicate voteIds in the pending pool only. A vote already sealed can be pooled and sealed again (`Service.BlockchainService.SealedVoteCanBePooledAgain`). A stricter ledger would also look for the voteId in the sealed blocks; this code does not.
- Every rejection is a plain `false`/`null` return, not a typed error.
- `validateVote` rejects an empty `previousHash` as well as a missing or non-string one.
- `verifyVote` recomputes the hash of the vote passed in, not of the sealed copy. Its failures come in a fixed order: not sealed, then a recomputation that throws or mismatches, then an invalid containing block.
- `getBlockchainStats` reports the genesis hash as `lastBlockHash` when the genesis block is the only block. `lastBlockHash` is null only when the chain is empty.
- `getElectionVotes` returns an empty list if any sealed vote lacks an `electionId`, because `undefined.toString()` throws inside its `try`. Under the service invariant no such vote exists.
- `findVoteInBlockchain` reports the block's position in the chain. `getElectionVotes` reports the block's stored `index` field. Under the invariant the two are the same.

## Model

| member | source | states |
|---|---|---|
| `Runtime.MeetsDifficultyMeaning` | services/blockchainService.js:151 | the `startsWith('0'.repeat(d))` test holds exactly when the hash has at least d characters and the first d are all '0' |
| `VoteModel.Create` | models/Vote.js:4-39 | a document exists exactly when voterId, candidateId and electionId are present and constituency is a non-empty string; a failure names the missing paths; timestamp defaults to the creation time, isVerified to false, and every other field is kept as given |
| `VoteModel.HashDependsOnlyOnIdentity` | models/Vote.js:42-51 | `generateHash` (`VoteModel.GenerateHash`) depends only on voterId, candidateId, electionId, timestamp, previousHash and nonce; constituency, ipAddress, userAgent, isVerified and verificationTimestamp do not affect it |
| `VoteModel.HashRoundTrip` | models/Vote.js:42-57 | after `hash := generateHash()`, `verifyHash()` (`VoteModel.VerifyHash`) is true |
| `VoteModel.VerifyHashIgnoresUnhashedFields` | models/Vote.js:34-57 | changing only fields outside the hash (the isVerified/verificationTimestamp annotation among them) leaves `verifyHash()` as it was |
| `VoteBridge.SameHashInput` | models/Vote.js:43-48 | the document and the ledger concatenate the same six fields in the same order |
| `VoteBridge.HashesAgree` | models/Vote.js:42-51 | when the two SHA-256 finalisers agree, the ledger's recomputation of a document's vote hash is exactly `generateHash()` |
| `VoteBridge.GeneratedVotePassesValidation` | services/blockchainService.js:75-103 | a document with non-empty ids and previousHash whose hash was set by `generateHash` passes `validateVote` when the finalisers agree |
| `VoteBridge.BothChecksNeedAgreeingFinalisers` | services/blockchainService.js:115 | a document that passes both `verifyHash` and `validateVote` makes `toString('hex')` and `digest('hex')` agree on its hash input |
| `Chain.VoteHashInput` | services/blockchainService.js:106-120 | `calculateVoteHash` throws exactly when voterId, candidateId, electionId or timestamp is missing; a missing previousHash or nonce contributes "undefined" instead |
| `Chain.VoteHashDependsOnlyOnIdentity` | services/blockchainService.js:108-115 | the ledger's vote hash depends only on the six hashed fields; voteId does not enter it |
| `Chain.ValidateVote` | services/blockchainService.js:75-103 | a vote is accepted exactly when voterId, candidateId and electionId are non-empty, a timestamp is present, hash and previousHash are non-empty strings, and the recomputed hash equals the stored one; an accepted vote's hash recomputation never throws |
| `Chain.CalculateVoteHash` | services/blockchainService.js:106-120 | `calculateVoteHash` yields no hash (it throws) exactly when voterId, candidateId, electionId or timestamp is missing |
| `Chain.BlockHashSeesIndexPlusTimestamp` | services/blockchainService.js:34-42 | `calculateHash` (`Chain.CalculateHash` over `Chain.BlockHashInput`) sees index and timestamp only through their numeric sum, and the votes only through their serialisation |
| `Chain.IsBlockValidMeaning` | services/blockchainService.js:248-287 | `isBlockValid(i)` (`Chain.IsBlockValid`) holds exactly when i is a position in the chain, the stored hash equals the recomputation, its first `difficulty` characters are all '0', and past the genesis block it links to its predecessor's hash |
| `Chain.LatestBlock` | services/blockchainService.js:45-47 | the tail of the chain, absent exactly when the chain is empty; on a linked chain its index is the chain length minus one |
| `Chain.Genesis` | services/blockchainService.js:15-22 | the genesis block has index 0, no votes, previousHash "0", nonce 0 and the first clock reading as its timestamp; on its own it forms a linked chain |
| `Chain.GenesisValidity` | services/blockchainService.js:15-22 | a lone genesis block passes `isBlockValid(0)` exactly when the two clock readings hash alike and the hash meets the difficulty |
| `Chain.GenesisNotAlwaysValid` | services/blockchainService.js:12-24 | for any clock readings, some platform makes a freshly initialised chain fail `isBlockValid(0)` at difficulty 4 |
| `Chain.ValidityIsPrefixStable` | services/blockchainService.js:248-287 | whether block i is valid depends only on it and its predecessor, so appending blocks changes no earlier verdict |
| `Chain.TamperedHashDetected` | services/blockchainService.js:257-280 | overwriting a correct stored hash makes that block fail, and makes a successor that linked to it fail too |
| `Chain.UndetectedVoteTamperIsCollision` | services/blockchainService.js:257-267 | replacing a valid block's votes with a list that serialises differently, while the block still passes, exhibits two different inputs with the same SHA-256 text |
| `Chain.TotalVotesAppend` | services/blockchainService.js:319 | sealed-vote counts add up over concatenated chains |
| `Chain.RoundHalfUp` | services/blockchainService.js:328-335 | the average interval is the nearest integer to the exact quotient, with halves rounded up |
| `Chain.BlockElectionVotesMembership` | services/blockchainService.js:351-359 | within one block, an annotated vote is listed exactly when it is one of the block's votes for the election |
| `Chain.ElectionVotesMembership` | services/blockchainService.js:346-368 | the election query lists exactly the sealed votes of that election, each with its own block's index, hash and timestamp |
| `Chain.ElectionVotesAppend` | services/blockchainService.js:350-361 | the election query of a longer chain extends the shorter chain's answer, in chain order |
| `Service.TestVote` | services/blockchainService.js:398-409 | the self-test vote carries its own recomputed hash, and it passes validation exactly when the genesis hash and its own hash are non-empty |
| `Service.BlockchainService.constructor` | services/blockchainService.js:4-9 | a new service has an empty chain and pool, difficulty 4 and mining reward 0 |
| `Service.BlockchainService.Initialize` | services/blockchainService.js:12-31 | the chain becomes the genesis block alone; the pool and the difficulty are untouched; the invariant holds |
| `Service.BlockchainService.AddVote` | services/blockchainService.js:50-72 | the vote is appended to the pool exactly when it passes `validateVote` and no pooled vote has its voteId; otherwise the pool is unchanged; the chain is never modified |
| `Service.BlockchainService.MineNonce` | services/blockchainService.js:139-151 | the stored nonce is the last one tried, which is the least nonce whose hash meets the difficulty, and the returned hash is that nonce's hash |
| `Service.BlockchainService.MineBlock` | services/blockchainService.js:123-174 | with an empty pool or no chain, nothing changes and the result is null; otherwise the chain grows by one block holding the old pool in order, with the next index, a link to the tail's hash and the least winning nonce; the pool is emptied; the new block passes `isBlockValid`; earlier verdicts and the invariant are kept; the sealed-vote total grows by the pool size |
| `Service.BlockchainService.VerifyBlockchain` | services/blockchainService.js:290-314 | the chain is reported intact, with its length, exactly when every block passes `isBlockValid`; otherwise the report names the first failing block; on any chain the service builds, only block 0 (the unmined genesis block) can fail, and the chain is intact exactly when block 0 is valid |
| `Service.BlockchainService.FindVoteInBlockchain` | services/blockchainService.js:227-245 | null exactly when no sealed block holds the voteId; otherwise the first such vote of the first such block, with that block's position and hash |
| `Service.BlockchainService.VerifyVote` | services/blockchainService.js:177-224 | not found when no block holds the voteId; then a failure when recomputing the argument's hash throws, then a mismatch when it differs from the argument's hash, then an invalid-block result when the first containing block fails `isBlockValid`; otherwise success with that block's position and hash |
| `Service.BlockchainService.GetBlockchainStats` | services/blockchainService.js:317-343 | block count, total sealed votes, pool size, difficulty, height = blocks - 1, tail hash; the average interval is 0 below two blocks and otherwise the rounded (last - first) / (blocks - 1), since the gaps telescope; the whole record equals `StatsOf` of the chain, pool size and difficulty |
| `Service.BlockchainService.GetElectionVotes` | services/blockchainService.js:346-368 | the election's sealed votes in chain order with block annotations; empty if any sealed vote lacks an electionId, which the invariant rules out |
| `Service.BlockchainService.GetBlockchainJSON` | services/blockchainService.js:371-383 | the chain, pool and difficulty as they are, with the full `getBlockchainStats()` record (`StatsOf` of the same state) |
| `Service.BlockchainService.Test` | services/blockchainService.js:386-450 | the self-test fails at vote intake exactly when its vote is invalid or its voteId is already pooled; otherwise the chain is genesis plus one valid mined block, and the test passes exactly when the genesis block is valid, reporting that chain's full statistics |
| `Service.BlockchainService.MineAndVerify` | services/blockchainService.js:420-436 | sealing onto a lone genesis block always yields a valid block 1, so the chain check reports block 0 or success |
| `Service.BlockchainService.SealedVoteCanBePooledAgain` | services/blockchainService.js:57-64 | a vote added and sealed is accepted into the pool again at once, because duplicates are looked for in the pool only |

## Left out

- SHA-256, `JSON.stringify`, `String(number)` and `Date.prototype.toISOString` are abstract functions of the platform. Every property holds for any choice of them. Claims that a hash is sensitive to its input need collision resistance, which is out of reach. `Chain.UndetectedVoteTamperIsCollision` states the reduction instead.
- `Date.now()` and `new Date()` are parameters of the methods that read the clock.
- JavaScript numbers are doubles; the model uses unbounded integers. This matters for `index + timestamp` only beyond 2^53.
- `Service.BlockchainService.MineBlock`: the nonce search has no bound in the source and never returns when no nonce meets the difficulty. The model requires a winning nonce to exist, which is exactly when the loop ends. The cost of the search (about 16^d tries on average) is not modelled.
- `Service.BlockchainService.MineNonce`: same precondition as `MineBlock`, for the same reason.
- `Chain.RoundHalfUp`: `Math.round` is applied to the exact quotient. Rounding in the double division is not modelled.
- Three of the source's error paths are modelled: a missing field in `calculateVoteHash`, reading the tail of an empty chain in `mineBlock`, and a missing `electionId` in `getElectionVotes`. A throw from `JSON.stringify` inside `calculateHash` is not modelled (see the next line). The console logging around the errors is left out.
- Service.BlockchainService.MineBlock: a ledger vote here is exactly eight fields, with string ids and an integer nonce, so `JSON.stringify` cannot throw in the model. In the source, a pooled vote carrying a BigInt field or a circular reference still passes `validateVote`; `JSON.stringify` then throws inside the nonce loop after line 136 has already emptied the pool, and `mineBlock` returns null with the chain unchanged and every pooled vote lost. That outcome is not reachable in the model. For the same reason, `JSON.stringify` and the `...vote` spread in `getElectionVotes` see every field of the caller's object in the source, not only these eight.
- `mineBlock` is `async` but never awaits. Only sequential calls are modelled, with no concurrency, locks or cancellation.
- Blocks and votes are immutable values here. In the source, `mineBlock` and `getBlockchainJSON` hand out references to the live chain and pool, and a caller could change them through those references; that aliasing is not modelled.
- `isBlockValid` called with a non-integer, and any operation called with `null` instead of a vote object, are not modelled.
- `VoteModel.Create`: Mongoose checks required paths when a document is saved or validated, not when it is constructed. The model checks them at construction. Casting of object ids is not modelled.
- The routes, the server, the e-mail and face-recognition services, the Java classes, and the Candidate and Election models are not part of this model.
