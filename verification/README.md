# safekit: a verified model of nonce coordination, address prediction and the deployment cache

This project models the parts of safekit in which something can silently go wrong, and proves what the
library promises about them:

- **Nonces.** Many goroutines, and with Redis many processes, share one wallet. The local manager is a
  one-token channel with three counter fields; the Redis manager is a lock key and a counter key driven by
  single commands. Each is modelled twice: as objects with the source's own methods, proved against a
  sequential specification, and as a step system in which every atomic access is one action, so that all
  interleavings, crashes and failing commands are covered. Lemmas show that an undisturbed call of the object
  is a run of the step system (`AcquireIsARun`, `ResolveIsARun`, `SubmitIsARun`).
- **Prediction.** The predicted address, the calldata, the factory contract and the receipt check are modelled
  on bytes. Keccak-256 is a parameter: every theorem holds for every function from byte strings to words.
- **The deployment cache.** Double-checked locking over three maps, against an uncached `Load`, while the chain
  registry changes.

## Files

| file | contents |
|---|---|
| `Common`, `Bytes`, `NonceContract` | shared vocabulary |
| `LocalProtocol`, `LocalManager` | the in-process manager: step system, objects |
| `Account`, `SubmitProtocol`, `Submit` | the account, concurrent Submits, the method itself |
| `RedisProtocol`, `RedisDirty`, `RedisLedger`, `RedisChain`, `RedisManager` | the Redis manager: ownership, Reclaim, conservation, chain agreement, objects |
| `Equivalence` | the two managers answer alike |
| `Abi`, `Predict`, `Deploy` | encoding, prediction, execution, receipt, collisions |
| `ChainRegistry`, `Versions`, `CacheProtocol` | registry, `Load`, the cache object and its concurrent form |
| `Fees` | the fee cap against the base-fee rule of EIP-1559 |

## Assumptions

- **Account.** Nobody else uses the wallet (`README.md:183`). The node's pending nonce moves by one when a
  broadcast with that nonce is accepted; a broadcast may also be accepted although the caller sees an error.
  Other nonces may be accepted too, without moving the account, so that "every broadcast carries the pending
  nonce" is a theorem and not built in. When `PendingNonceAt` answers, it answers the pending nonce (the stale
  delay exists so that the node has settled, `internal/nonce/source.go:10-12`). No transaction has nonce
  2^64 - 1 (EIP-2681).
- **Redis.** A command is applied at one instant or not at all, and its reply may be an error either way.
  The lock's TTL removes it only when no live goroutine or open slot relies on it
  (`pkg/nonce/redis/manager.go:42-44`). Instance ids are unique per manager and shared by its goroutines.
  `Reset` is not called once any Acquire has happened (`pkg/nonce/nonce.go:33`).
- **Registry.** It may change at any time between calls and while a cached lookup or a receipt is awaited, but not
  within one Submit or one prediction.
- **Slots** may be resolved any number of times by any goroutine; in the Submit systems each is resolved once,
  as the contract asks.

## Where the code and its documentation differ

The model follows the code.

- `pkg/nonce/redis/manager.go:1-3` promises safety across processes and `pkg/nonce/nonce.go:18-20` promises that
  after Reclaim the *next* Acquire refetches. The dirty flag lives in one process
  (`pkg/nonce/redis/manager.go:64`), so another process that acquires first takes the counter's value instead.
  `RedisChain.AgreementNeedsItsHypothesis` reaches this state; `RedisChain.UninformedHandOut` proves that the
  nonce then handed out is right if and only if the failed broadcast had been accepted; and
  `RedisChain.ChainAgreement` proves that everything is right as long as no clean process passes the dirty
  check while another is dirty, which `RedisChain.AgreementWhereDocumented` shows to hold for one instance and
  for runs without a failed broadcast.
- `pkg/nonce/nonce.go:14-16` promises that after Reuse the next Acquire receives the same nonce. With Redis this
  holds if and only if the nonce is below 2^63 - 1, the range of DECR (`Equivalence.ReuseAgreesExactly`);
  `Equivalence.FreshManagersPartAtTheBound` reaches the bound.
- `README.md:29` promises that the predicted and the deployed address agree. Wait resolves the chain id anew
  (`internal/txmanager/txmanager.go:185`), so a Fork or Deregister between Submit and Wait can make it report a
  mismatch (`Deploy.ForkAfterSubmitMismatches`); `Deploy.WaitNeverMismatches` holds whenever the chain id still
  resolves to the same one.
- A uint64 counter comes round: "no nonce twice" holds if and only if at most 2^64 nonces have been given out
  (`RedisLedger.CommittedOnceExactly`, `RedisLedger.CommitsRepeatInTheEnd`).

## Model

| member | source | states |
|---|---|---|
| `LocalProtocol.TokenConservation` | pkg/nonce/local/manager.go:48-104 | in every interleaving tokens in the channel, calls that have left it and unresolved slots add up to one, and no send on the channel ever blocks |
| `LocalProtocol.StepKeepsInv` | pkg/nonce/local/manager.go:82-160 | each atomic step of Acquire and of a resolution keeps single ownership of the token and the agreement of the counter fields with what its owner has read |
| `LocalProtocol.DirtyPersists` | pkg/nonce/local/manager.go:119-138 | a dirty manager stays dirty and hands out nothing through any run without a recorded refetch |
| `LocalProtocol.ReclaimForcesRefetch` | pkg/nonce/local/slot.go:32-42 | the same after any run from the start |
| `LocalProtocol.ReclaimIsRefetched` | pkg/nonce/local/manager.go:119-138 | from any reachable Reclaim on, in every interleaving, the first nonce handed out is one that the goroutine that gets it has fetched since the Reclaim as its last step before recording it; the counter then holds it and is clean |
| `LocalProtocol.ReusedIsNext` | pkg/nonce/local/slot.go:18-30 | from any reachable Reuse on, in every interleaving, the first nonce handed out is the reused one, zero included, whichever goroutine gets it |
| `LocalProtocol.FirstResolutionWins` | pkg/nonce/local/slot.go:10-42 | dropping every call that loses its compare-and-swap leaves a run with the same final state that resolves each slot at most once |
| `LocalManager.NonceManager.Acquire` | pkg/nonce/local/manager.go:82-104 | nonce, error and new state are those of the specification; a fresh open slot exactly on success; the token comes back on failure |
| `LocalManager.NonceManager.NextNonce` | pkg/nonce/local/manager.go:113-160 | refetch when dirty, seed when empty, increment otherwise, with every early return leaving the fields alone |
| `LocalManager.Slot.Commit` | pkg/nonce/local/slot.go:10-16 | the first resolution frees the manager and leaves counter and flag alone, later ones change nothing |
| `LocalManager.Slot.Reuse` | pkg/nonce/local/slot.go:18-30 | the first resolution takes the increment back modulo 2^64 and frees the manager, later ones change nothing |
| `LocalManager.Slot.Reclaim` | pkg/nonce/local/slot.go:32-42 | the first resolution marks the manager dirty and frees it, later ones change nothing |
| `LocalManager.AcquireIsARun` | pkg/nonce/local/manager.go:82-160 | an undisturbed Acquire of the step system has exactly the specified outcome |
| `LocalManager.ResolveIsARun` | pkg/nonce/local/slot.go:10-42 | an undisturbed first resolution of the step system has exactly the specified outcome |
| `SubmitProtocol.EndToEndSafety` | internal/txmanager/txmanager.go:120-172 | in every interleaving of any number of Submits with arbitrary failures every broadcast carries the pending nonce, and the accepted nonces are consecutive from the start, each once |
| `SubmitProtocol.ProjectionIsARun` | internal/txmanager/txmanager.go:120-172 | Submits use the manager only through its own steps, so the manager's theorems hold under them |
| `SubmitProtocol.QuiescentIsSound` | internal/txmanager/txmanager.go:120-172 | when no Submit is under way the token is back and a clean counter is one behind the account |
| `Submit.TxManager.Submit` | internal/txmanager/txmanager.go:97-173 | if the calldata or the address cannot be computed, the error says which and nothing is acquired; otherwise the deployment's calldata is submitted to its factory; something is broadcast if and only if a nonce was acquired, the address is not known to be deployed, and gas, tip, header, gas price where it is needed and signature were all obtained |
| `Submit.TxManager.SubmitCalldata` | internal/txmanager/txmanager.go:120-172 | from Acquire on: the error is that of the first step that fails; the slot is resolved exactly once, by Reuse iff nothing was broadcast, Reclaim iff the broadcast failed, Commit iff it succeeded; the one transaction broadcast carries the acquired nonce and the answered prices, legacy without a base fee, else with cap 2 * base fee + tip |
| `Submit.BroadcastExactly` | internal/txmanager/txmanager.go:125-164 | what Submit does implies: a broadcast happens exactly if no answer stands in its way, and an address already deployed gives that error |
| `Submit.SubmitIsARun` | internal/txmanager/txmanager.go:120-172 | one undisturbed call by goroutine t is the named list of t's own actions, with at most one broadcast and one resolution, of the slot it acquired; it is a run of the concurrent system with the specified effect and leaves that one slot, resolved |
| `Submit.SubmitKeepsSound` | internal/txmanager/txmanager.go:120-172 | one Submit, whatever fails, takes the pending nonce if any and leaves the manager free and in step with the account |
| `Submit.SubmitsKeepSound` | internal/txmanager/txmanager.go:120-172 | after any sequence of Submits with arbitrary failures the manager is free and its counter sound |
| `RedisProtocol.MutualExclusion` | pkg/nonce/redis/manager.go:128-195 | in every run with crashes, expiry after crashes, ambiguous commands and shared instance ids at most one live goroutine or open slot relies on the lock, the lock holds its instance id, and its release script answers 1 |
| `RedisProtocol.LockChangesOnlyByItsOwner` | pkg/nonce/redis/scripts.go:5-18 | the lock key is set only when free, and deleted only by the instance it names or by expiry when nothing alive relies on it |
| `RedisProtocol.StepKeepsOwner` | pkg/nonce/redis/manager.go:128-254 | each command, flag access, crash and expiry keeps single ownership of the lock |
| `RedisProtocol.ReleaseSparesOthers` | pkg/nonce/redis/scripts.go:5-18 | the script leaves any lock that does not hold the given id as it was, however it came about |
| `RedisDirty.ReclaimForcesRefetch` | pkg/nonce/redis/manager.go:199-219 | after any run of all instances a dirty instance stays dirty and is handed nothing until its flag is cleared |
| `RedisDirty.DirtyPersists` | pkg/nonce/redis/slot.go:37-47 | the same from any state in which ownership and dirtiness are respected |
| `RedisDirty.ReclaimIsRefetched` | pkg/nonce/redis/manager.go:199-219 | from any reachable Reclaim on, in every interleaving of all instances with crashes and failing commands, the first nonce handed to the reclaiming instance is one that the goroutine that gets it has fetched since the Reclaim and then stored with success; the counter is its successor and the flag is clear |
| `RedisLedger.Conservation` | pkg/nonce/redis/manager.go:166-254 | without Reclaim, with crashes and ambiguous commands anywhere, the nonces from the seed up to the counter are the disjoint union of the committed ones, at most one outstanding one and the lost ones |
| `RedisLedger.CommittedOnce` | pkg/nonce/redis/slot.go:14-35 | after any run without Reclaim that makes at most 2^64 SETs, each nonce is committed, lost or outstanding at most once altogether |
| `RedisLedger.CommittedOnceExactly` | pkg/nonce/redis/manager.go:221-254 | for runs of any length: no nonce is committed, lost or outstanding twice if and only if no more than 2^64 have been given out |
| `RedisLedger.CommitsRepeatInTheEnd` | pkg/nonce/redis/manager.go:221-254 | a run of 2^64 + 1 Acquires, each committed, reaches a nonce committed twice |
| `RedisLedger.StepKeepsInv` | pkg/nonce/redis/manager.go:199-254 | each step moves a nonce between issued, outstanding, committed, lost and returned without creating or dropping one |
| `RedisChain.ChainAgreement` | pkg/nonce/redis/manager.go:199-254 | as long as no clean instance passes the dirty check while another is dirty, a free, clean, present counter is the pending nonce, every broadcast carries it, and the accepted nonces are consecutive |
| `RedisChain.AgreementWhereDocumented` | pkg/nonce/redis/slot.go:14-47 | all of this holds for one instance with any number of goroutines and Reclaim, and for any number of instances without Reclaim |
| `RedisChain.UninformedHandOut` | pkg/nonce/redis/manager.go:200-254 | where the hypothesis first fails the nonce handed out is the one after the reclaimed one, which is right if and only if the failed broadcast had been accepted |
| `RedisChain.AgreementNeedsItsHypothesis` | pkg/nonce/redis/manager.go:64-64 | a concrete run of two instances that reaches the failure |
| `RedisManager.NonceManager.Acquire` | pkg/nonce/redis/manager.go:128-147 | nonce, error, lock, counter and flag are those of the specification, under every outcome of every command; the lock is released when nextNonce fails |
| `RedisManager.NonceManager.AcquireLock` | pkg/nonce/redis/manager.go:166-182 | polling ends as the attempts decide, whatever other processes leave in the lock in between |
| `RedisManager.ObtainedByAWinner` | pkg/nonce/redis/manager.go:166-182 | an obtained lock was free at some attempt before which every attempt was answered busy, and holds this instance's id |
| `RedisManager.WinnerObtains` | pkg/nonce/redis/manager.go:166-182 | conversely such an attempt obtains the lock |
| `RedisManager.NotObtained` | pkg/nonce/redis/manager.go:166-182 | otherwise the wait ended after nothing but busy answers, or it was broken off at the first attempt whose command failed, with the lock each leaves |
| `RedisManager.NonceManager.NextNonce` | pkg/nonce/redis/manager.go:199-254 | refetch and store when dirty, seed when absent, read, parse and store otherwise, with the exact state left behind by each failing command |
| `RedisManager.NonceManager.ReleaseLock` | pkg/nonce/redis/manager.go:184-195 | deletes the lock exactly if it holds this instance's id and the script runs |
| `RedisManager.Store.ReleaseLockScript` | pkg/nonce/redis/scripts.go:12-18 | compare and delete in one step, answering 1 or 0 |
| `RedisManager.Slot.Commit` | pkg/nonce/redis/slot.go:14-23 | the first resolution releases the lock if it is this instance's, later ones change nothing; counter and flag stay |
| `RedisManager.Slot.Reuse` | pkg/nonce/redis/slot.go:25-35 | the first resolution decrements the counter, if DECR can, and releases the lock if it is this instance's; later ones change nothing |
| `RedisManager.Slot.Reclaim` | pkg/nonce/redis/slot.go:37-47 | the first resolution sets the process's dirty flag and releases the lock if it is this instance's, later ones change nothing; the counter stays |
| `RedisManager.AcquireIsARun` | pkg/nonce/redis/manager.go:128-254 | an undisturbed Acquire of the step system, polling a taken lock included, has exactly the specified outcome, under every outcome of every command |
| `RedisManager.ResolveIsARun` | pkg/nonce/redis/slot.go:14-47 | an undisturbed first resolution of the step system has exactly the specified outcome |
| `Equivalence.FreshManagersAgree` | pkg/nonce/local/manager.go:113-160 | on every script of Acquire and resolutions with arbitrary source answers two fresh managers give the same nonces and errors, as long as no nonce of 2^63 - 1 or more is reused |
| `Equivalence.SameAnswers` | pkg/nonce/redis/manager.go:199-254 | the same from every pair of related states, the counter being one past the nonce modulo 2^64 |
| `Equivalence.ReuseAgreesExactly` | pkg/nonce/redis/slot.go:25-35 | after a Reuse the next Acquire gets the same answer from both if and only if the nonce is below 2^63 - 1; locally it always gets the reused nonce, zero included |
| `Equivalence.FreshManagersPartAtTheBound` | pkg/nonce/redis/slot.go:25-35 | the bound is reached from two fresh managers whose source answers 2^63 - 1: after the Reuse the local one gives that nonce again, Redis the next |
| `Abi.RoundTrip` | internal/predict/initializer.go:43-60 | decoding an argument block by its types, offsets and lengths included, gives back the values it was made from, for every list of values |
| `Abi.BlobIsPadded` | internal/txmanager/txmanager.go:307-312 | bytes are encoded as their length, themselves, and zeros up to a whole word |
| `Abi.WholeWords` | internal/txmanager/txmanager.go:307-312 | every argument block consists of whole words |
| `Bytes.MostSignificantFirst` | internal/txmanager/txmanager.go:304-305 | numbers are read big-endian |
| `Predict.InitializerRoundTrip` | internal/predict/initializer.go:43-60 | setup reads back, parameter by parameter, the given owners, of any number, the threshold, no payment, empty data and zero addresses |
| `Predict.InitializerLayout` | internal/predict/initializer.go:18-60 | the initializer byte by byte: selector of the setup signature, eight head words with their offsets, owners, empty data |
| `Predict.OwnerWord` | internal/predict/initializer.go:44-46 | the i-th owner stands left-padded in the i-th word of the owners |
| `Predict.InitializerInjective` | internal/predict/initializer.go:43-60 | different owners or thresholds never share an initializer |
| `Predict.DeriveSaltNonce` | internal/predict/predict.go:76-82 | the buffer filled is the hash of the salt |
| `Predict.BuildInitCode` | internal/predict/predict.go:86-94 | the buffer filled is the creation code followed by the singleton left-padded to a word |
| `Predict.Deployment.Singleton` | internal/versions/deployment.go:52-57 | the L2 flag selects the L2 singleton's record, its absence the plain one's, at the resolved chain id |
| `Predict.PredictionFailsExactly` | internal/predict/predict.go:37-58 | prediction fails exactly for a nil chain id, a factory record that does not load, or a singleton record that does not load, in this order |
| `Predict.SameAddressMeansCollision` | internal/predict/predict.go:62-109 | from two different inputs with the same address, two different byte strings are computed that collide under keccak, or under the 20 bytes an address keeps |
| `Predict.PredictionsCollideOnlyWithKeccak` | internal/predict/predict.go:37-74 | the same for predictions under one deployment, chain and L2 flag: the pair computed from the two inputs with that deployment's factory and singleton collides |
| `Deploy.FactoryDeploysWherePredicted` | internal/txmanager/txmanager.go:283-318 | the factory, given the calldata built, deploys at exactly the predicted address a proxy of the singleton the L2 flag selects, with the hash of the salt as salt nonce, whose setup reads the given owners and threshold and nothing else |
| `Deploy.CalldataLayout` | internal/txmanager/txmanager.go:283-318 | the calldata byte by byte: selector, singleton, offset, hash of the salt, length, initializer, zeros up to a whole word |
| `Deploy.CalldataIsWholeWords` | internal/txmanager/txmanager.go:307-317 | the calldata is the selector followed by whole words |
| `Deploy.CalldataFailsExactly` | internal/txmanager/txmanager.go:289-315 | calldata cannot be built exactly if the factory's record or then the singleton's does not load, or the factory has no createProxyWithNonce |
| `Deploy.CreateCallRoundTrip` | internal/txmanager/txmanager.go:307-317 | the factory decodes exactly the singleton, initializer and salt nonce packed |
| `Deploy.SaltNonceRoundTrip` | internal/txmanager/txmanager.go:304-305 | the salt nonce survives the conversion to a number and back |
| `Deploy.WaitNeverMismatches` | internal/txmanager/txmanager.go:177-219 | with a faithful factory, Wait on a mined receipt that did not revert returns the predicted address, never a mismatch, for every change of the registry since Submit that leaves the chain id resolving as before |
| `Deploy.WaitComparesPredictions` | internal/txmanager/txmanager.go:177-219 | with a faithful factory whose event is unchanged, Wait reports a mismatch if and only if the address predicted in its registry is not the one predicted in Submit's |
| `Deploy.WaitSucceedsExactly` | internal/txmanager/txmanager.go:177-219 | Wait succeeds exactly if there is a receipt that did not revert and its first log with the factory's event names the predicted address, with the receipt's block and gas |
| `Deploy.WaitFailsExactly` | internal/txmanager/txmanager.go:185-213 | each error exactly when it is due: no prediction, no receipt, a reverted transaction, no readable event, or a log that names another address |
| `Deploy.ForkAfterSubmitMismatches` | internal/txmanager/txmanager.go:185-213 | a chain forked between Submit and Wait gives a mismatch although the factory deployed where Submit predicted |
| `Deploy.ExtractDeployedAddress` | internal/txmanager/txmanager.go:366-405 | the search loop finds what the first log with the event's topic names, and says if the factory or its event is unknown |
| `Deploy.EventRoundTrip` | internal/txmanager/txmanager.go:389-401 | under the unindexed and the indexed layout the emitted proxy is recovered, whatever other logs surround it |
| `Deploy.ExtractionFailsExactly` | internal/txmanager/txmanager.go:381-404 | extraction fails exactly if no log matches or the first match is unindexed with under 32 data bytes, with the error of that case |
| `Deploy.ExtractsExactly` | internal/txmanager/txmanager.go:366-405 | it gives an address exactly if the first log with the event names it, in its second topic or else in its first data word |
| `ChainRegistry.Registry.Register` | pkg/chain/registry.go:61-79 | refuses nil chains, nil ids and blank names, each with its error; otherwise stores the chain under its id, which then resolves to its source if it is a fork and to itself if not, and changes nothing else |
| `ChainRegistry.BlankIsAllSpace` | pkg/chain/registry.go:70-72 | a name trims to nothing exactly if all of it is space |
| `ChainRegistry.Registry.Lookup` | pkg/chain/registry.go:83-97 | finds exactly the registered ids |
| `ChainRegistry.Registry.Fork` | pkg/chain/registry.go:103-112 | registers a copy whose lookups then resolve to the source's id |
| `ChainRegistry.Registry.Deregister` | pkg/chain/registry.go:116-121 | removes the id, which from then on resolves to itself |
| `Versions.Load` | internal/versions/loader.go:74-120 | the scan computes the specified answer, errors in the source's order |
| `Versions.LoadSucceedsExactly` | internal/versions/loader.go:80-119 | Load succeeds exactly if the chain's first type that is not zkSync's has a non-empty name and address, which the answer carries |
| `Versions.LoadFailsExactly` | internal/versions/loader.go:74-115 | each error of Load exactly when it is due, so their order is the source's |
| `Versions.ZksyncNames` | internal/versions/loader.go:91-96 | the names taken for zkSync's are the spellings of zksync up to case folding, and no other |
| `Versions.BaseDeployment.ResolveChainID` | internal/versions/deployment.go:63-74 | a registered fork resolves to its source, every other id, registered or not, to itself |
| `Versions.BaseDeployment.LoadCached` | internal/versions/deployment.go:76-104 | the answer is Load's; a hit, at either check, returns the very object stored; only a successful miss adds an entry, to its own map; whatever other goroutines store in any map between the two checks |
| `Versions.BaseDeployment.ProxyFactory` | internal/versions/deployment.go:48-50 | equals an uncached Load of the factory record at the currently resolved chain id, errors included; the other maps are untouched |
| `Versions.BaseDeployment.Singleton` | internal/versions/deployment.go:52-57 | with the L2 flag an uncached Load of the L2 singleton's record at the currently resolved chain id, without it of the plain singleton's; the other maps are untouched |
| `CacheProtocol.AnswersAreUncached` | internal/versions/deployment.go:48-104 | in every interleaving, with the registry changing, every returned lookup equals an uncached Load for the contract and chain id of its call and the registry at the moment it resolved that id, errors included, so the three maps never mix |
| `CacheProtocol.LoadedOnce` | internal/versions/deployment.go:76-104 | each entry of each map is loaded successfully at most once, and all lookups whose contract and resolved chain id are the same return the same pointer or the same error |
| `CacheProtocol.NoConcurrentMapAccess` | internal/versions/deployment.go:83-103 | a map is never written while another goroutine reads or writes one |
| `Fees.FeeCapCoversFiveBlocks` | internal/txmanager/txmanager.go:349-352 | the cap is at least the tip, and still pays the full tip after any five blocks if and only if the base fee is 5 wei or more |
| `Fees.PaysTipExactlyUpToDouble` | internal/txmanager/txmanager.go:349-352 | the cap pays the full tip at a later base fee if and only if that is at most twice the one it was computed from, and otherwise what is left of it |

## Left out

- Deploy: Submit followed by Wait under a timeout; it adds only the renaming of one error.
- Registry changes within one Submit or within one prediction: the chain id is resolved once for the whole of it, so a fork between two lookups of one call is not modelled there; CacheProtocol has it lookup by lookup.
- Messages of errors: errors are kinds; both managers' Acquire errors are compared up to the texts that wrap them.
- Liveness of lock polling and receipt polling: it depends on fairness and wall-clock time; waitForReceipt is an oracle for a receipt or none.
- Contexts and timers: cancellation, delays and timeouts are nondeterministic choices; a cancelled SETNX is a wait that ended.
- Client-level retries of Redis commands, and commands applied after their caller has given up: each command is applied at most once, at its own step.
- Lock expiry under a live holder, and Reset during use: outside the documented assumptions.
- JSON parsing, hexadecimal addresses and the embedded tables and bytecode: Load starts from a parsed record, whose addresses are bytes and whose ABI is its two facts the library uses.
- Keccak, signing and key handling: a parameter and an oracle.
- Predict.InitializerRoundTrip: for owner lists shorter than 2^64, the limit of a Go slice.
- Packing errors of setup: the arguments always have the ABI's types, so BuildInitializer cannot fail.
- Gas headroom in internal/txmanager/gas.go: floating-point; the limit is an answer of the node.
- Chains as shared pointers: a registered chain is a value, so changing its fields later is not modelled.
- LocalManager.Slot.Commit: requires that an unresolved slot has its manager's token; LocalProtocol.TokenConservation proves this of every interleaving.
- Options, defaults, Init's source object and the safe, signer and mock packages: plumbing.
