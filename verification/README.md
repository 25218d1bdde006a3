# NeuronChain: ledger, custody and relay protocols, modelled and proved

A Dafny model of the parts of NeuronChain where correctness is a matter of protocol rather than of one function:

- **The block-lattice ledger** (`src/ledger/engine-ledger.ts`). One hash-linked chain per account; value and tokens
  move by send/receive pairs; blocks arrive from peers in any cross-account order, with duplicates; accounts that
  fork are frozen. `EngineLedger.dfy` is the ledger as the mutable object it is. Every public operation is proved
  to compute the functions of `Ledgers.dfy`, and everything about runs is proved on those functions: each index is
  a function of the held chains, replay converges, local creation refines remote application, value is conserved,
  a transfer is claimed at most once, freezing is sound and order-blind.
- **Key custody.** Shamir 2-of-n over GF(256) with its log/exp tables built by the source's loop
  (`src/core/shamir.ts`); the sealed key blob, its recovery, and the PIN and face rotations that rewrite it
  (`src/core/face-store.ts`, `src/main.ts`); the Base58 codec of key backups (`src/main.ts`).
- **Relays.** The fork index over the block archive, the recovery-share release gate with its backoff, and the
  generation follower (`relay/server.ts`).
- **Consensus helpers.** Conflict voting (`src/core/vote.ts`) and committee sortition
  (`src/engine/consensus/committee.ts`).

Hashes, signatures and encryption are ideal: a content hash is the term `ContentHash(content)`, a signature the
triple it signs, a ciphertext opens with its own key only. Clocks, randomness, key derivation, face comparison and
the verdicts of other components are parameters. Classes carry the source's fields and rewrite them in place; each
method's `ensures` ties the whole new state and the result to a specification function, and the theorems are
lemmas about those functions.

Run `dafny verify dfyconfig.toml` in this directory.

| files | content |
|---|---|
| `Prelude`, `FiniteSums` | option/result types; sums over finite maps |
| `Blocks`, `Ledgers`, `EngineLedger` | blocks, the ledger's functions, the ledger object |
| `Acceptance`, `Creations`, `Registration` | what each entry point accepts, builds and leaves, in terms of its inputs |
| `ChainIndex`, `Indexing` | every index is a function of the chains |
| `Replay`, `LocalReplay`, `Custody`, `NftReplay`, `NftInterleaving` | convergence, refinement, token ownership |
| `Freezing`, `EmptySeats`, `ClaimOnce` | forks, lost accounts, double claims |
| `Conservation`, `ValueLeaks`, `TokenLeaks` | the law of value, and where delivered blocks break it |
| `Polynomials`, `Gf256`, `Shamir` | the field of section 4.2 of FIPS 197, its tables, the secret sharing |
| `Base58`, `KeyBlobs`, `Rotation`, `HandlerRules`, `SecuritySession` | codec, sealed blobs, rotations |
| `Voting`, `VoteRules`, `VoteManager`, `Committee` | conflict voting, sortition |
| `ForkIndex`, `ReleaseGate`, `ReleaseRules`, `Generation` | relay state machines |

## What the proofs found

The code is followed where it differs from its comments. Each item is a lemma below.

- Value is not conserved over delivered blocks. After every run of deliveries and local calls whose sends are fair
  (an unclaimed hash, an unfrozen sender), balances and offers are what the blocks account for plus a surplus of
  receives over the sends they claim (`Conservation.ValueLaw`); the surplus is never negative while no send arrives after a receive that misnames it,
  and then zero exactly when no held send is received twice (`Conservation.ValueIsConservedIff`,
  `Conservation.ClaimsMatchIff`). Both leaks are reachable: a second receive of a held, claimed send is accepted and
  adds its amount (`ValueLeaks.ReceiveIsAcceptedIff`, `ValueLeaks.ReceiveAddsValue`,
  `ValueLeaks.HeldSendIsReceivedTwice`), and a send that arrives after a receive of another amount is not compared
  with it (`ValueLeaks.SendIsAcceptedIff`, `ValueLeaks.LateSendLosesValue`).
- In the same way an account can receive a token transfer again after passing the token on, or after it was burned,
  and then the token is in two places, or held though burned (`TokenLeaks.AcceptedClaimKeepsSingleIff`,
  `TokenLeaks.SecondClaimIsAccepted`, `TokenLeaks.BurnedTokenIsHeldAgain`).
- `createSend` offers a new send without asking whether its hash was already claimed; offers and claims stay
  disjoint over a run exactly when no created send's was (`ClaimOnce.AlwaysDisjointIff`,
  `ValueLeaks.ClaimedHashIsOffered`).
- An `open` block above index 0 is accepted whatever balance it states
  (`Conservation.LateOpenHasNoBalanceRule`), and a send without a recipient is accepted and offered to nobody
  (`ValueLeaks.SendIsAcceptedIff`); the jump of the one and the amount of the other are terms of the law.
- A genesis that is right in everything but its accumulator root is refused after its account was stored with an
  empty chain. That seat is never filled: the account can never be opened here, and its correct genesis makes
  `addBlock` throw (`EmptySeats.RunSeatsEmptyIff`, `EmptySeats.ThrowsIff`, `EmptySeats.SeatedEmptyIsLost`,
  `EmptySeats.EmptySeatHappens`).
- `proveDoubleSpend` asks for equal previous hashes as well as equal heights, so two authentic blocks of one account
  at one height go unpunished when their parents differ (`Freezing.SameHeightForkCanBeMissed`); exactly which steps
  freeze an account is `Freezing.StepFreezesIff` and, over runs, `Freezing.RunFreezesIff`.
- A frozen account can still create sends and receives locally, and open a chain the ledger does not hold
  (`Freezing.FrozenLocalCalls`).
- A freeze voids what the account has on offer, but restoration does not look at freezes: reloading a stored block
  that `addBlock` refuses puts a frozen account's send back on offer, the very fork sibling that froze it included,
  and its recipient can claim it (`Freezing.RestoreUndoesFreeze`, `Freezing.FrozenSendCanBeClaimed`). That and the
  account's own sends are the only ways (`Freezing.StepStaysClearIff`, `Freezing.FrozenOfferNothingIff`).
- Own-chain order is not enough for tokens. A genuine mint is refused when its token was burned first, a genuine
  transfer or burn when the token is burned or another account that still counts as holder is named owner; nothing
  else is refused (`NftReplay.GenuineIsAppendedIff`, `NftReplay.OwnOrderIsAcceptedIff`). Two accounts are enough
  for the mint, three for the transfer (`NftInterleaving.GenuineMintCanBeRefused`,
  `NftInterleaving.GenuineTransferCanBeRefused`). When each transfer arrives before its receive, everything is
  accepted and every owner agrees (`NftReplay.CausalReplayConverges`).
- A face update weakens a custody-split blob to the face alone when it passes the prompt and then finds no PIN key
  (`Rotation.SplitBlobDowngradesIff`). On a device in good order that needs a session that ends between the prompt
  and the look for the key (`Rotation.StepDowngradesIff`, `Rotation.VersionKeptIff`); otherwise it needs both the
  account and the blob to lack PIN salt or verifier, so that the prompt asks nothing.
- A PIN changed on one device is undone by a face update on another whose session is still live: the old PIN opens
  the new blob (`Rotation.CurrentPinSurvivesIff`).
- A third sibling that arrives after a vote is resolved re-opens it without withdrawing the earlier rejection, and
  the rejected block can then be confirmed while it is still rejected (`Voting.StepStaysCleanIff`,
  `Voting.ReopeningHappens`).
- A fork the relay meets while loading its saved archive is marked as announced before the publisher exists, so its
  evidence is not published until a wipe (`ForkIndex.QuietOnlyBeforeArming`, `ForkIndex.QuietStaysUnpublished`).

## Model

A row that begins with "step:" is one a theorem beside it rests on, or one that follows directly from the functions
it speaks of; the others are the results and the operations proved against them.

| member | source | states |
|---|---|---|
| `Blocks.MakeBlock` | src/engine/core/block.ts:215-237 | a created block verifies exactly when its own account signed it |
| `EngineLedgers.EngineLedger.OpenAccount` | src/ledger/engine-ledger.ts:298-329 | opening yields the genesis or nothing, and the whole new ledger state |
| `EngineLedgers.EngineLedger.CreateSend` | src/ledger/engine-ledger.ts:331-365 | which sends are refused, the block otherwise, and the whole new state |
| `EngineLedgers.EngineLedger.CreateReceive` | src/ledger/engine-ledger.ts:367-405 | a receive is created exactly for an unclaimed send to this account, with its amount; whole new state |
| `EngineLedgers.EngineLedger.CreateUpdate` | src/ledger/engine-ledger.ts:407-435 | refused for frozen, unopened or empty updates; whole new state |
| `EngineLedgers.EngineLedger.CreateMintNft` | src/ledger/engine-ledger.ts:455-475 | the minted token's id comes from minter, index and content; whole new state |
| `EngineLedgers.EngineLedger.CreateTransferNft` | src/ledger/engine-ledger.ts:477-497 | only the current owner transfers; whole new state |
| `EngineLedgers.EngineLedger.CreateReceiveNft` | src/ledger/engine-ledger.ts:499-522 | only the addressee of an unclaimed transfer claims it; whole new state |
| `EngineLedgers.EngineLedger.CreateBurnNft` | src/ledger/engine-ledger.ts:524-541 | only the current owner burns; whole new state |
| `EngineLedgers.EngineLedger.RecordCustody` | src/ledger/engine-ledger.ts:548-555 | an event replaces its account's row only when later, and re-derives the owner |
| `EngineLedgers.EngineLedger.RecomputeOwner` | src/ledger/engine-ledger.ts:557-569 | sole holder, none, or the incumbent among several |
| `EngineLedgers.EngineLedger.AddBlock` | src/ledger/engine-ledger.ts:761-907 | the outcome of every check in order, and the whole state each outcome leaves |
| `EngineLedgers.EngineLedger.CheckBody` | src/ledger/engine-ledger.ts:792-874 | the balance, ownership and source rule of each block type |
| `EngineLedgers.EngineLedger.RegisterVerifiedSend` | src/ledger/engine-ledger.ts:1011-1049 | exactly which proved sends go on offer: not claimed, not burned, sender not frozen; whole new state |
| `EngineLedgers.EngineLedger.RegisterVerifiedMint` | src/ledger/engine-ledger.ts:935-964 | a proved mint is recorded once, and success means the record is there |
| `EngineLedgers.EngineLedger.RestoreVerifiedBlock` | src/ledger/engine-ledger.ts:966-1009 | exactly which blocks are re-seated, and that claims and burns are not overridden; whole new state |
| `EngineLedgers.EngineLedger.FreezeEquivocator` | src/ledger/engine-ledger.ts:1071-1082 | records the evidence once and voids the account's offers by two loops |
| `EngineLedgers.EngineLedger.FlagEquivocation` | src/ledger/engine-ledger.ts:1051-1059 | freezes exactly on a double spend |
| `EngineLedgers.EngineLedger.ApplyEvidenceFromBlocks` | src/ledger/engine-ledger.ts:1066-1069 | freezes exactly on two authentic conflicting blocks, and says whether it was new |
| `EngineLedgers.EngineLedger.GetAccountBalance` | src/ledger/engine-ledger.ts:278-283 | head balance, zero when frozen or not held |
| `EngineLedgers.EngineLedger.Reset` | src/ledger/engine-ledger.ts:1339-1362 | back to the empty ledger |
| `Acceptance.AppendedIff` | src/ledger/engine-ledger.ts:761-877 | a delivered block is appended exactly when it is the signed next link of an unfrozen account and moves its balance by its own credit, with the cover, source, owner or provider right its type needs |
| `Acceptance.HeldOrForkIff` | src/ledger/engine-ledger.ts:768-791 | which delivered blocks count as held already and which as forks of the held one, and what each leaves |
| `Acceptance.OthersLeaveNoTrace` | src/ledger/engine-ledger.ts:761-877 | every other block is refused and changes nothing, except the genesis that seats its account empty |
| `Acceptance.ReasonsAreTrue` | src/ledger/engine-ledger.ts:761-877 | every refusal gives a reason that is true of the block |
| `Acceptance.TransferIsAcceptedIff` | src/ledger/engine-ledger.ts:831-839 | a well-formed delivered transfer is accepted exactly from the named owner, or when its hash was claimed |
| `Acceptance.BurnIsAcceptedIff` | src/ledger/engine-ledger.ts:852-856 | a well-formed delivered burn is accepted exactly from the named owner |
| `Acceptance.MintIsAcceptedIff` | src/ledger/engine-ledger.ts:815-830 | a well-formed delivered mint is accepted exactly when its token has neither record nor burn |
| `Acceptance.SentTokenIsNotSentAgain` | src/ledger/engine-ledger.ts:831-839 | while a transfer of a token is unclaimed, no further transfer or burn of it is accepted, its sender's included |
| `Creations.CallsBuildWhatIsAsked` | src/ledger/engine-ledger.ts:298-546 | when each local call succeeds, in terms of its arguments and the chains, and that its block is the next signed link with the asked-for body, time and balance |
| `Creations.SendReachesRecipient` | src/ledger/engine-ledger.ts:331-405 | a successful send can next be claimed by exactly its recipient, once opened; sender and recipient move by exactly the amount, and the claim is spent |
| `Creations.TransferReachesRecipient` | src/ledger/engine-ledger.ts:477-522 | a successful transfer can next be claimed by exactly its recipient, if opened and not frozen, who then holds the token while the sender does not |
| `Creations.RecipientOwns` | src/ledger/engine-ledger.ts:477-569 | and where each token is in one place the claimant is its owner |
| `Creations.MintedIsOwned` | src/ledger/engine-ledger.ts:455-475 | a mint makes the caller the owner and records exactly minter, content and metadata |
| `Creations.BurnedIsNobodys` | src/ledger/engine-ledger.ts:524-546 | a burn leaves the token burned and without owner, and records and offers as they were |
| `Creations.BurnedForever` | src/ledger/engine-ledger.ts:524-596 | a burned token stays burned and ownerless through every run, and is never transferred, burned or minted again |
| `Registration.RegistrationOffersWhatIsSigned` | src/ledger/engine-ledger.ts:1027-1049 | step: exactly which proved sends are registered, and that the new offer is sender, claimant and the amount or token the send signs; all other offers stay |
| `Registration.RunKeepsOffersSigned` | src/ledger/engine-ledger.ts:116-146 | after every run of every entry point each offer carries the sender, recipient and amount or token its own hash signs |
| `Registration.ClaimsFitTheirSource` | src/ledger/engine-ledger.ts:367-522 | so every claim created from an offer fits the signed source: addressed to the claimant, same amount or token |
| `Registration.ClaimsAreEntitled` | src/ledger/engine-ledger.ts:804-851 | and every other ledger, holding the source or not, finds the claim entitled |
| `Registration.MintRecordIsSigned` | src/ledger/engine-ledger.ts:935-964 | step: which mint proofs are recorded and that the record is the signed minter, content and metadata; owners and offers stay |
| `Registration.RestorationReseatsWhatIsSigned` | src/ledger/engine-ledger.ts:966-1009 | which blocks are re-seated, with the signed record, offer and loss of custody, and that claims, burns and chains stay |
| `ChainIndex.RecordShape` | src/ledger/engine-ledger.ts:548-569 | step: recording an event settles one row and one owner and touches nothing else |
| `ChainIndex.HolderIsFound` | src/ledger/engine-ledger.ts:557-569 | step: an account counts as holder exactly when its own latest row says so |
| `ChainIndex.SetRowInPlace` | src/ledger/engine-ledger.ts:548-555 | step: a row takes its account's place or goes last, the others stay where they are |
| `ChainIndex.OwnerIsRederived` | src/ledger/engine-ledger.ts:557-569 | whom re-deriving names: nobody when burned or unheld, else an incumbent who still holds, else the account of the last row that does |
| `Indexing.DeliveryKeepsIndex` | src/ledger/engine-ledger.ts:117-146 | any delivered block, valid or not, keeps claims, offers, records, burns, custody and owners functions of the held chains |
| `Indexing.CreationKeepsIndex` | src/ledger/engine-ledger.ts:331-546 | local creation keeps the same |
| `Indexing.RunKeepsIndex` | src/ledger/engine-ledger.ts:117-146 | after every run of creations and deliveries all indexes equal their definitions |
| `Indexing.ChainsDecide` | src/ledger/engine-ledger.ts:117-146 | two ledgers with equal chains agree on every index, and on the owner of each token with at most one holder |
| `Indexing.RunKeepsOwners` | src/ledger/engine-ledger.ts:557-569 | in any run an owner is one of the token's holders, and absent when burned or unheld |
| `Replay.PaymentReplayConverges` | src/ledger/engine-ledger.ts:761-907 | any two own-order deliveries of the same matched payment chains are accepted in full and end in equal ledgers |
| `Replay.PaymentReplayIsComplete` | src/ledger/engine-ledger.ts:792-907 | a full replay holds every chain, offers exactly the unclaimed sends, claims exactly the receives' sources |
| `Replay.TokenReplayConverges` | src/ledger/engine-ledger.ts:548-596 | two fully accepted replays agree on chains, claims, records, burns, custody and single-holder owners |
| `NftReplay.CausalReplayIsAccepted` | src/ledger/engine-ledger.ts:818-860 | genuine token chains delivered with transfers before their receives are accepted in full, each token in at most one place |
| `NftReplay.CausalReplayConverges` | src/ledger/engine-ledger.ts:548-596 | such replays agree on everything, the owner of every token included |
| `NftReplay.MovingKeepsSingle` | src/ledger/engine-ledger.ts:571-596 | mint, transfer, receive and burn move a token between single places |
| `TokenLeaks.ClaimIsAcceptedIff` | src/ledger/engine-ledger.ts:840-851 | a well-formed delivered token receive is accepted exactly when its source is not held or hands it that token, claimed before or not |
| `TokenLeaks.AcceptedClaimKeepsSingleIff` | src/ledger/engine-ledger.ts:840-851 | an accepted token receive makes its account a holder, and leaves each token in one place exactly when its token has a record, is unburned and was nowhere but in that transfer or with the receiver |
| `TokenLeaks.SecondClaimIsAccepted` | src/ledger/engine-ledger.ts:840-851 | after any causal replay of genuine chains a second receive of a claimed transfer is accepted, and splits the token exactly when it had left its receiver |
| `TokenLeaks.BurnedTokenIsHeldAgain` | src/ledger/engine-ledger.ts:840-851 | a concrete causal replay after which a burned token is held again |
| `NftReplay.GenuineIsAppendedIff` | src/ledger/engine-ledger.ts:818-860 | on any ledger holding prefixes of genuine chains, which next block is appended and which refusal the others get: mints only for a burned token, transfers and burns only when somebody else is named owner or the token is burned |
| `NftReplay.OwnOrderIsAcceptedIff` | src/ledger/engine-ledger.ts:818-860 | an own-order replay of genuine chains is accepted in full exactly when each block passes that rule where it first arrives |
| `NftInterleaving.GenuineMintCanBeRefused` | src/ledger/engine-ledger.ts:819-830 | a concrete two-account interleaving in which a genuine mint is refused as already existing |
| `NftInterleaving.GenuineTransferCanBeRefused` | src/ledger/engine-ledger.ts:831-839 | a concrete three-account interleaving in which a genuine transfer is refused |
| `Custody.CustodyIsLatest` | src/ledger/engine-ledger.ts:548-555 | after any order and repetition of events, each row is its account's highest-index event |
| `Custody.OrderDoesNotMatter` | src/ledger/engine-ledger.ts:548-596 | two orders of the same fork-free events agree on custody, burns and single-holder owners |
| `Custody.RunsAgreeOnCustody` | src/ledger/engine-ledger.ts:548-596 | the same for whole runs through all entry points, restorations included |
| `Custody.OwnersAreHeld` | src/ledger/engine-ledger.ts:477-546 | in every run of every entry point a token's owner has an opened chain |
| `Custody.OwnerCallsNeedNoHead` | src/ledger/engine-ledger.ts:477-546 | so transfer and burn succeed exactly for an unfrozen owner (with a recipient), never stopped by a missing head |
| `LocalReplay.LocalCreationRefinesDelivery` | src/ledger/engine-ledger.ts:298-596 | replaying a ledger's own blocks through `addBlock` is accepted in full and rebuilds the ledger |
| `Freezing.ChainsOnlyGrow` | src/ledger/engine-ledger.ts:761-907 | no entry point shortens or breaks a chain, thaws an account, or replaces its evidence |
| `Freezing.FrozenOnlyOnEvidence` | src/ledger/engine-ledger.ts:1051-1082 | every frozen account is frozen on two authentic conflicting blocks the ledger saw |
| `Freezing.OneChainIsNeverFrozen` | src/ledger/engine-ledger.ts:764-791 | an account whose authentic blocks lie on one chain is never frozen |
| `Freezing.ForkFreezesInEitherOrder` | src/ledger/engine-ledger.ts:764-791 | two different acceptable blocks freeze the account whichever came first, whatever came between |
| `Freezing.StepFreezesIff` | src/engine/consensus/fraud.ts:28-33 | any step freezes an unfrozen account exactly when it delivers an authentic block beside a held one of another hash and the same parent, or proves two such blocks |
| `Freezing.RunFreezesIff` | src/ledger/engine-ledger.ts:764-791 | after every run the frozen accounts are exactly those |
| `Freezing.SameHeightForkCanBeMissed` | src/engine/consensus/fraud.ts:31 | a concrete run in which two authentic blocks of one account at one height freeze nobody |
| `Freezing.FrozenChainStaysPut` | src/ledger/engine-ledger.ts:761-770 | a frozen account stays frozen and no foreign input moves its chain |
| `Freezing.FrozenLocalCalls` | src/ledger/engine-ledger.ts:298-405 | step: for every local call of a frozen account, exactly when it succeeds: opening a chain not held, affordable sends, receives on offer to it, nothing else |
| `Freezing.StepStaysClearIff` | src/ledger/engine-ledger.ts:966-1082 | from a state where frozen accounts offer nothing, a step of any entry point keeps that exactly when it is neither a restoration that puts a frozen account's send or transfer on offer nor a send it creates |
| `Freezing.FrozenOfferNothingIff` | src/ledger/engine-ledger.ts:966-1082 | the same for every run: frozen accounts never offer anything if and only if no step re-offers |
| `Freezing.RestoreUndoesFreeze` | src/network/node.ts:738-746 | restoring the send whose refusal froze its account puts it back on offer, and its recipient can claim it |
| `Freezing.FrozenSendCanBeClaimed` | src/ledger/engine-ledger.ts:966-1009 | a concrete three-call run after which a frozen account's send can be claimed |
| `EmptySeats.StepSeatsEmptyIff` | src/ledger/engine-ledger.ts:767-782 | an account is held without a block after a step of any entry point exactly when it was before, or the step delivers a genesis wrong in its root alone |
| `EmptySeats.RunSeatsEmptyIff` | src/ledger/engine-ledger.ts:767-782 | after every run the accounts held without a block are exactly those such a genesis reached: the seat is never filled |
| `EmptySeats.ThrowsIff` | src/ledger/engine-ledger.ts:767-782 | step: `addBlock` throws exactly on an authentic block for such an account, unless frozen or a malformed genesis |
| `EmptySeats.SeatedEmptyIsLost` | src/ledger/engine-ledger.ts:298-329 | from then on, whatever happens, no local call of the account succeeds, no block of it is accepted, and its correct genesis throws |
| `EmptySeats.EmptySeatHappens` | src/ledger/engine-ledger.ts:776-782 | a concrete delivery after which an acceptable genesis throws |
| `ClaimOnce.NextStaysDisjoint` | src/ledger/engine-ledger.ts:116-124 | every entry point keeps offers apart from claims and keeps all claims |
| `ClaimOnce.CreatedSendNeedsFreshHash` | src/ledger/engine-ledger.ts:355-364 | step: a created send breaks that exactly when its hash was claimed in advance |
| `ClaimOnce.AlwaysDisjointIff` | src/ledger/engine-ledger.ts:116-124 | over every run of every entry point, offers and claims stay apart throughout exactly when every created send had an unclaimed hash |
| `ValueLeaks.ClaimedHashIsOffered` | src/ledger/engine-ledger.ts:355-364 | a concrete run after which a created send puts a claimed hash on offer |
| `ClaimOnce.ClaimsPersist` | src/ledger/engine-ledger.ts:116-124 | over any run claims only grow |
| `ClaimOnce.ClaimedAtMostOnce` | src/ledger/engine-ledger.ts:367-399 | no run lets two claims of one payment or token transfer both succeed |
| `ClaimOnce.DeliveryIgnoresClaims` | src/ledger/engine-ledger.ts:804-814 | step: the verdict on a delivered block does not depend on the payment claims; what follows is `ValueLeaks.ReceiveIsAcceptedIff` |
| `Conservation.AcceptedMovesByCredit` | src/ledger/engine-ledger.ts:792-874 | an accepted block above the genesis moves its account's balance by exactly its own credit, which for an `open` is its jump |
| `Conservation.LateOpenHasNoBalanceRule` | src/ledger/engine-ledger.ts:792-800 | an `open` above the genesis is accepted with any stated balance |
| `Conservation.CreatedMovesByCredit` | src/ledger/engine-ledger.ts:298-399 | step: so does every created block |
| `Conservation.ValueLaw` | src/ledger/engine-ledger.ts:761-907 | after every run of deliveries, freezes included, and local calls with fair sends: balances plus offers equal mint, openings, settlements and orphan receives, less voided and unaddressed sends, plus the surplus of receives over the sends they claim |
| `Conservation.ValueIsConservedIff` | src/ledger/engine-ledger.ts:792-881 | where no send arrives after a receive that misnames it, such a run never loses value and conserves it exactly when no held send is received twice |
| `Conservation.ClaimsMatchIff` | src/ledger/engine-ledger.ts:804-814 | after such a run every held receive matches its held source exactly when no block arrived that an earlier receive misnames |
| `Conservation.LocalKeepsPaymentsIff` | src/ledger/engine-ledger.ts:355-399 | a local call keeps offers and claims functions of the chains exactly when the send it creates has a fresh hash and an unfrozen sender |
| `ValueLeaks.ReceiveIsAcceptedIff` | src/ledger/engine-ledger.ts:804-814 | a well-formed delivered receive is accepted exactly when its source is not held or pays it that amount, claimed before or not |
| `ValueLeaks.ReceiveAddsValue` | src/ledger/engine-ledger.ts:804-886 | an accepted receive of a send no longer on offer raises the total value by its amount |
| `ValueLeaks.HeldSendIsReceivedTwice` | src/ledger/engine-ledger.ts:804-814 | a concrete run: a held and claimed send is received again, and the value rises |
| `ValueLeaks.SendIsAcceptedIff` | src/ledger/engine-ledger.ts:800-803 | a delivered send is accepted exactly when positive and covered, whatever its recipient and whoever claimed it; then it is offered to nobody |
| `ValueLeaks.LateSendLosesValue` | src/ledger/engine-ledger.ts:800-814 | a concrete run that ends with less value than its blocks account for |
| `Polynomials.RemDivides` | src/core/shamir.ts:36-38 | reduction subtracts a multiple of the modulus |
| `Polynomials.RemIsUnique` | src/core/shamir.ts:36-38 | and its result is the only remainder of degree below 8 |
| `Gf256.Times3Multiplies` | src/core/shamir.ts:36-38 | one step of the table loop is multiplication by 3 modulo 0x11b |
| `Gf256.GeneratorOrder` | src/core/shamir.ts:33-39 | 3 has order exactly 255 |
| `Gf256.GeneratorOrbit` | src/core/shamir.ts:31-42 | the 255 powers are different and cover every nonzero byte |
| `Gf256.BuildTables` | src/core/shamir.ts:29-42 | the loop makes EXP and LOG mutually inverse on 1..255, with EXP repeated above 255 |
| `Gf256.TableMulIsFieldMul` | src/core/shamir.ts:44-47 | table multiplication is polynomial multiplication modulo 0x11b |
| `Gf256.DivInvertsMul` | src/core/shamir.ts:49-53 | division inverts it on both sides |
| `Gf256.FieldLaws` | src/core/shamir.ts:44-53 | commutative, associative, distributive over XOR, with unit 1 |
| `Shamir.ShamirSplit` | src/core/shamir.ts:67-77 | accepts exactly n in 2..255 and returns the n shares of the line through the secret |
| `Shamir.ShamirCombine` | src/core/shamir.ts:80-92 | accepts exactly distinct coordinates with equal lengths and evaluates the line at zero |
| `Shamir.TwoSharesReconstruct` | src/core/shamir.ts:18-21 | any two different shares give back the secret |
| `Shamir.SplitThenCombine` | src/core/shamir.ts:67-92 | split then combine any two of the shares, in either order, is the secret |
| `Shamir.OneShareFitsEverySecret` | src/core/shamir.ts:67-77 | one share is explained by every secret, by exactly one random string |
| `Shamir.ShareAtZeroIsSecret` | src/core/shamir.ts:23-25 | the reserved coordinate 0 would be the secret itself |
| `Base58.Base58Encode` | src/main.ts:477-484 | the loops compute the positional encoding with its leading ones |
| `Base58.Base58Decode` | src/main.ts:486-497 | the loops compute the decoding and refuse exactly what it refuses |
| `Base58.DecodeInvertsEncode` | src/main.ts:475-497 | decode after encode is the identity on every byte string |
| `Base58.EncodeInvertsDecode` | src/main.ts:475-497 | encode after decode is the identity on every string over the alphabet, and all others are refused |
| `Base58.AlphabetIsRanges` | src/main.ts:475 | step: the 58 characters are different and are the digits and letters without 0, O, I and l |
| `KeyBlobs.XorKey` | src/core/face-store.ts:132-138 | the byte loop computes the exclusive or of all factors |
| `KeyBlobs.MissingFactorHidesKey` | src/core/face-store.ts:123-131 | whatever two factors are, every key comes from exactly one third factor |
| `KeyBlobs.CreatedIsSealed` | src/core/face-store.ts:227-315 | step: a created blob is sealed for its owner, verifies against its anchor, counter zero |
| `KeyBlobs.RecoveryIsExact` | src/core/face-store.ts:397-516 | a sealed blob of version 1, 2 or 3 opens for the owner's factors and nothing else, with keys and counter |
| `Rotation.PromptNeedsThePin` | src/main.ts:356-430 | step: the prompt lets the user on exactly with a live session or a PIN of the owner's bits |
| `Rotation.ResealingIsSealed` | src/main.ts:3040-3110 | step: a PIN change reseals for the new PIN, and gives up only for an uncached share |
| `Rotation.NewFaceIsSealed` | src/main.ts:3237-3300 | step: a face change reseals for the new face, with the cached share where there is one |
| `Rotation.RecoveryKeepsGood` | src/main.ts:2621-2845 | recovery on a device succeeds exactly for the owner's factors, resets the counter and restores session, share and account |
| `HandlerRules.PinChangeCompletesIff` | src/main.ts:2997-3163 | exactly when a PIN change completes, in terms of what the user enters and the device holds, and that it then reseals for the new PIN, salt and session |
| `HandlerRules.FaceChangeCompletesIff` | src/main.ts:3166-3339 | exactly when a face change completes, and that it then reseals for the new face with the share at hand |
| `HandlerRules.RecoveryRestores` | src/main.ts:2657-2850 | on any device recovery succeeds exactly when the record does not disown the blob and PIN, face and presented share are the owner's; what it then restores, and that it changes nothing otherwise |
| `HandlerRules.CreationChoosesVersion` | src/core/face-store.ts:227-315 | step: which creations are refused, the version made, and that a blob without a PIN opens for exactly the scans that give the enrolled face key |
| `HandlerRules.OnlyWholePairs` | src/core/face-store.ts:397-516 | step: recovery gives back whole key pairs only |
| `Rotation.StepKeepsGood` | src/main.ts:2997-3323 | every handler, completed or refused, keeps the blob sealed, session and share the owner's, and the version from falling, unless a face update loses the PIN key |
| `Rotation.StepDowngradesIff` | src/main.ts:3173-3285 | on a good device a step lowers the blob's version exactly when a live session ends between prompt and key lookup on a split blob whose new face is captured |
| `Rotation.LostKeyLeavesFaceAlone` | src/main.ts:3196-3288 | and the blob then opens for any scan of the new face, whatever the PIN and the share |
| `Rotation.RotationsNeverBrick` | src/main.ts:2997-3323 | after any run that loses no key the blob opens for the current factors and only those, with the original keys and a readable counter |
| `Rotation.NeverDowngraded` | src/main.ts:3261-3268 | over such a run the blob's version never goes down |
| `Rotation.VersionKeptIff` | src/main.ts:3173-3285 | a run keeps the version at every step if and only if no face update in it loses the key |
| `Rotation.ChangesSyncTheRecord` | src/main.ts:2977-2994 | step: from any state, a completed change leaves the record holding the new blob's anchor; a refused one changes neither |
| `Rotation.FaceMapFollows` | src/main.ts:3237-3300 | over every run, from any state, the blob's face map hash is of the enrolled face or the last one changed to |
| `Rotation.EnrolledIsGood` | src/core/face-store.ts:227-315 | step: a freshly created account starts in the invariant |
| `Rotation.SplitBlobDowngradesIff` | src/main.ts:3173-3285 | step: from any state, the exact condition under which a face update weakens a split blob |
| `Rotation.FaceChangeSealsForSession` | src/main.ts:3173-3300 | step: a face change seals for exactly the PINs that give the live session's bits under the salt this device knows |
| `Rotation.CurrentPinSurvivesIff` | src/main.ts:3173-3312 | after a PIN change elsewhere, which PINs open the blob a still-live first device reseals: those agreeing with the old one under its old salt |
| `SecuritySessions.SecuritySession.PromptPin` | src/main.ts:356-430 | patches missing PIN data from the blob, then session, cancel or check |
| `SecuritySessions.SecuritySession.UpdatePin` | src/main.ts:2997-3163 | the handler's branches over blob versions compute the specified new device state |
| `SecuritySessions.SecuritySession.UpdateFace` | src/main.ts:3166-3339 | the handler's branches compute the specified new device state |
| `SecuritySessions.SecuritySession.RecoverAccount` | src/main.ts:2657-2850 | anchor check, PIN, share and recovery compute the specified new device state |
| `VoteManagers.VoteManager.RegisterBlock` | src/core/vote.ts:67-102 | confirmed alone, otherwise the whole group goes to a vote; answer and whole new state |
| `VoteManagers.VoteManager.AddVote` | src/core/vote.ts:107-135 | duplicates, replays and stale votes do not count; whole new state |
| `VoteManagers.VoteManager.Scan` | src/core/vote.ts:166-190 | the loop finds the first block with most approval and whether the group is decided |
| `VoteManagers.VoteManager.ResolveConflicts` | src/core/vote.ts:151-203 | the pass over all groups, and exactly the reported winners and losers |
| `Voting.RunIsOk` | src/core/vote.ts:67-203 | every reachable group is a confirmed singleton, all in voting, or one confirmed and the rest rejected; every tally equals its one-per-voter votes |
| `Voting.CountingAddsUp` | src/core/vote.ts:124-134 | a counted vote adds its stake to exactly one side |
| `Voting.PassConfirmsTheLeader` | src/core/vote.ts:157-199 | a pass confirms a block exactly when its group is decided and it is the first with most approval; no sibling has more |
| `VoteRules.PassSettlesIff` | src/core/vote.ts:151-199 | a pass settles a group exactly when its frontrunner has two thirds of the stake that took a side, or some tally is older than ten seconds and the frontrunner has approval or every block a vote; then one is confirmed, the others rejected |
| `VoteRules.NoHasteWithoutTwoThirds` | src/core/vote.ts:180-185 | before the timeout no block with less than two thirds is confirmed |
| `VoteRules.VoteCountsIff` | src/core/vote.ts:107-135 | step: which votes count, and that one adds its stake to its own side of its own block only |
| `VoteRules.SignaturesAreRemembered` | src/core/vote.ts:112-120 | which signatures are remembered, stale votes' included, and that the oldest goes at fifty thousand |
| `VoteRules.RecordedVotesWereFresh` | src/core/vote.ts:107-135 | in every run a recorded vote was cast within a minute of its timestamp |
| `VoteRules.NoSignatureCountsTwice` | src/core/vote.ts:112-120 | in runs of at most fifty thousand votes no signature counts twice, on one block or two |
| `VoteRules.RegistrationContests` | src/core/vote.ts:67-102 | step: a new block joins its group once: alone it is confirmed, among siblings none stays confirmed and each has a tally, new ones empty and opened now |
| `VoteRules.AnswerIsTheState` | src/core/vote.ts:67-102 | the caller is told confirmed exactly when the block is confirmed afterwards |
| `VoteRules.NothingIsReportedTwice` | src/core/vote.ts:151-203 | a pass reports no block twice, neither as confirmed nor as rejected |
| `Voting.ReportIsExact` | src/core/vote.ts:151-203 | the reported lists are exactly what the pass confirmed and rejected |
| `Voting.StepStaysCleanIff` | src/core/vote.ts:67-102 | nothing becomes both confirmed and rejected, or rejected and on the ballot, unless a late sibling re-opens a settled group |
| `Voting.RunStaysClean` | src/core/vote.ts:67-203 | runs without such a late sibling keep the two verdicts apart |
| `Voting.RejectedBlockCanWin` | src/core/vote.ts:151-203 | once re-opened, one large enough vote flips the verdict and leaves the block confirmed and rejected |
| `Voting.ReopeningHappens` | src/core/vote.ts:67-203 | a concrete reachable state of that kind |
| `ForkIndex.EngineArchive.IndexEngineRow` | relay/server.ts:244-256 | first row of a height is indexed, the second announced and published once |
| `ForkIndex.EngineArchive.ArchiveEngineBlock` | relay/server.ts:514-538 | invalid and known blocks change nothing; others are stored and indexed |
| `ForkIndex.EngineArchive.LoadEngineBlocks` | relay/server.ts:258-274 | the load loop stores and indexes exactly the rows that still verify |
| `ForkIndex.EngineArchive.WipeArchive` | relay/server.ts:857-860 | the archive and its conflict index empty together |
| `ForkIndex.RunAgrees` | relay/server.ts:233-256 | in every run a height is announced exactly when two stored blocks share it; evidence names such a pair, once per height |
| `ForkIndex.StoredRowsWereBrought` | relay/server.ts:258-274 | in every run only saved rows and verified blocks are stored, each under its own hash |
| `ForkIndex.VerifiedRowsStay` | relay/server.ts:514-538 | a verified block stays stored until a wipe |
| `ForkIndex.LoadsWhatVerifies` | relay/server.ts:258-274 | loading brings back exactly the saved rows that still verify |
| `ForkIndex.ArmedForGood` | relay/server.ts:246-250 | the publisher is armed from the first arming on, wipes included |
| `ForkIndex.ArmedConflictsArePublished` | relay/server.ts:244-256 | from then on a height that becomes conflicted is published at once, with two stored blocks of it, on the second one's shard |
| `ForkIndex.QuietOnlyBeforeArming` | relay/server.ts:252-274 | a height stays unpublished exactly when its conflict arose before the publisher was armed |
| `ForkIndex.QuietStaysUnpublished` | relay/server.ts:246-250 | and then no later block makes it published |
| `ForkIndex.ServesExactlyWholeChains` | relay/server.ts:1288-1297 | the contiguity rule holds exactly for chains without fork and without gap, so never for an announced height |
| `ForkIndex.HeadProofIsRight` | relay/server.ts:1297-1319 | a proof is served exactly for a held send on such a chain, with opening, highest block, and the send at its own leaf position |
| `ReleaseGate.ScheduleAgrees` | src/core/pin-crypto.ts:106-110 | relay and client schedules are equal for every count: free, quadrupling, one day |
| `ReleaseGate.RecordCountsFailures` | relay/server.ts:1579-1592 | fails and lock are exactly the failures since the last release or wipe, whatever was stored between |
| `ReleaseGate.FailuresAreRateBounded` | relay/server.ts:598-601 | n failures take at least the first n - 1 backoffs, hence 40 950 000 ms and a day for each past ten |
| `ReleaseGate.TotalWaitClosed` | relay/server.ts:598-601 | the closed form of that sum |
| `ReleaseGate.BindingLasts` | relay/server.ts:1467-1508 | without a wipe the bound identity never changes, and only later timestamps replace a share |
| `ReleaseGate.ReleaseIsGated` | relay/server.ts:1579-1619 | a share leaves only for a full match outside a lock, and it is the last accepted signed deposit |
| `ReleaseRules.DepositsAreKept` | relay/server.ts:1437-1511 | which deposits are accepted; an accepted one is kept as given in lower case, binds a new record to the attested identity and leaves an old binding, count and lock |
| `ReleaseRules.RecordsAreFounded` | relay/server.ts:1486-1505 | over runs a record is bound to the identity attested for its first accepted deposit since the last wipe |
| `ReleaseRules.ReleasedIff` | relay/server.ts:1579-1619 | which attempts are released, denied or turned away, and what each does to count and lock |
| `ReleaseRules.HumanGetsTheShare` | relay/server.ts:1579-1619 | over runs a share is released exactly to that human's faces outside the lock, with share, coordinate and timestamp of the last accepted deposit |
| `ReleaseRules.HumanIsServedAfterBackoff` | relay/server.ts:1585-1592 | and to that human exactly from the last failure's backoff on |
| `ReleaseGate.RecoveryShareStore.StoreShare` | relay/server.ts:1437-1511 | every refusal, and the record that keeps identity, fails and lock |
| `ReleaseGate.RecoveryShareStore.ReleaseShare` | relay/server.ts:1547-1625 | every refusal, the loop over all faces, and the record each outcome leaves |
| `ReleaseGate.PinAttemptStore.RecordPinFailure` | src/core/pin-crypto.ts:131-142 | counts one more, locks by the relay's schedule, and leaves other accounts alone |
| `Generation.RunIsSafe` | relay/server.ts:2009-2025 | without operator resets no generation falls or passes the initial maximum |
| `Generation.AdoptingCloses` | relay/server.ts:2018-2021 | an adoption lowers the total distance to the maximum by its jump; nothing else changes it |
| `Generation.WipesAreBounded` | relay/server.ts:2009-2025 | whatever is delayed, lost or duplicated, the number of wipes is bounded by the initial distance |
| `Generation.ConvergedIffSettled` | relay/server.ts:1996-2006 | where every relay can reach the maximum, all have it exactly when no answer would move anyone |
| `Generation.LaggardCanAdopt` | relay/server.ts:2018-2021 | while some relay lags behind a peer, an answered poll makes one adopt |
| `Generation.LostReportsDoNotArrive` | relay/server.ts:2011-2017 | step: a lost answer does not arrive until it is given again |
| `Generation.Relay.PerformNetworkWipe` | relay/server.ts:857-875 | archive, custody, every other store and all face slots are emptied with the change of generation; the enrolled nullifiers stay |
| `Generation.Relay.FollowerTick` | relay/server.ts:2011-2024 | a tick wipes at most once, at the first peer found ahead, and otherwise changes nothing |
| `Committee.SelectsLowestTickets` | src/engine/consensus/committee.ts:67-71 | the committee is exactly the validators ranked below its size, in ticket order |
| `Committee.OrderIsIrrelevant` | src/engine/consensus/committee.ts:61-86 | members, weights and safety do not depend on the registry's order |
| `Committee.SmallerIsPrefix` | src/engine/consensus/committee.ts:71 | step: a smaller committee is the head of a larger one |
| `Committee.ChurnIsBounded` | src/engine/consensus/committee.ts:10-28 | a joining validator admits at most itself and costs at most the last seat, exactly when a full committee takes it in |
| `Committee.SafeIff` | src/engine/consensus/committee.ts:64-86 | for every registry, when a committee is safe, and that a refused one is empty |
| `Committee.SelectionReports` | src/engine/consensus/committee.ts:64-86 | step: a selection reports each member's own weight, their total, and a reason with the numbers compared |
| `Committee.TotalIsSum` | src/engine/consensus/committee.ts:74-76 | step: the total is a sum |

## Left out

- Provider rules for storage blocks: their verdict is a parameter of `AddBlock`; the balance arithmetic around them is modelled.
- Usernames and the effect of `update` blocks on account records: last writer by arrival, outside the convergence theorems.
- Shards, events, the archive of attestations and the challenge window: not part of the state the theorems are about.
- The validator registry: the bonded amount is a parameter of `CreateSend`.
- EngineLedgers.EngineLedger.OpenAccount: identity quorum, nullifier registration and the optional bond at opening are one verdict, `identityOk`.
- EngineLedgers.EngineLedger.FreezeEquivocator: slashing of the validator's bond is not modelled.
- EngineLedgers.EngineLedger.CreateTransferNft: an owner without a head would be a refusal here and an exception in the source; `Custody.OwnersAreHeld` proves that no run meets one.
- EngineLedgers.EngineLedger.CreateBurnNft: as for transfers.
- Accumulator internals: a root is the sequence of its leaves, and an inclusion proof is a verdict.
- EngineLedgers.EngineLedger.CreateSend: amounts are whole numbers and the recipient is already resolved; how the source rounds a fractional amount is not modelled.
- Committee finality, epoch seeds and account purging.
- Replay.TokenReplayConverges: acceptance is a premise, because own-chain order alone does not give it; `NftReplay.OwnOrderIsAcceptedIff` says exactly when it does, and `NftReplay.CausalReplayIsAccepted` gives an order that always does.
- Conservation.ValueLaw: covers runs of deliveries and local calls; proof registration and restoration put sends of chains not held on offer and are outside the law.
- Generation.ConvergedIffSettled: generations are whole numbers and the operator's reset handler is excluded by premise.
- Generation.Relay.PerformNetworkWipe: the entries of the other stores are opaque; the backfill cache and the writes to disk are not modelled.
- ReleaseGate.RecoveryShareStore.ReleaseShare: challenge sessions, the per-address cap and the trajectory verifier are verdicts; wrapping the share for the client is not modelled.
- ReleaseGate.RecoveryShareStore.StoreShare: the choice between attestation, name registry and live match of the identity is one optional value.
- Rotation.RotationsNeverBrick: covers sealed blobs of versions 1 to 3; of the version 0 blob only creation and opening are proved (`HandlerRules.CreationChoosesVersion`), its upgrade during recovery, which skips the record, is not modelled.
- Rotation.ChangesSyncTheRecord: of the account record only the anchor is kept; the optional second copy of the face descriptor is not.
- The local lockout consulted by the PIN prompt appears as a cancelled prompt; handlers are atomic apart from the session running out, which can happen in a PIN update before it reads the key and in a face update before it reads the key or while the camera runs.
- Voting.RunIsOk: stakes are natural numbers and the two-thirds ratio is exact; the source uses floating point. A block hash is always registered under its own account and previous hash. Signatures of votes are checked elsewhere.
- Committee.SelectsLowestTickets: weights are real numbers, tickets integers that order as the hash strings do; distinct validators are assumed to have distinct tickets, as a hash without collisions gives.
- Base58 key packing around the codec, DOM, camera, persistence, timers and transport.
- `src/core/dag-ledger.ts`, `src/core/recovery-challenge.ts`, `src/core/eye-hold.ts`, `src/network/account-resolver.ts`, `src/storage/sigv4.ts`: superseded, or one-branch rules that would add only easy members.
