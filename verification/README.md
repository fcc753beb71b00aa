# Verified model of L0

L0 is a blockchain node for a tree of chains. This project models the parts of it that decide what ends up in the
ledger, in Dafny, and proves that they do what they are for.

- **Consensus** (`Votes`, `Messages`, `Phases`, `Announcements`, `Protocol`, `Quorum`, `Sharpness`, `Delivery`, `Gate`,
  `Election`, `Blocks`): the LBFT engine. A batch goes through pre-prepare, prepare and commit, is announced as committed, is handed
  on in sequence and is cut into blocks. `Protocol` is a step system over all replicas and all messages ever sent; the
  other modules hold the code of one replica as classes, each method proved against a function of the old state.
- **Codec** (`Varint`, `Codec`): the reflection codec and its variable length integers.
- **Write-back caches** (`Sums`, `Balances`, `Queues`, `ContractState`, `Transfers`): account balances over the database,
  and the state and transfers of a running contract over the node over the database.
- **Pool and merge** (`Pool`, `Grouping`, `Netting`, `Release`): pending transactions of an account, grouping for a
  block, netting of cross-chain flows, majority release.

The main theorems:

- Two logs agree at every sequence number both delivered, over all runs and views, while fewer than 2Q - N replicas
  announced two batches at one number (`Protocol.LogAgreement`); the quorum the code starts with makes that a third of
  the replicas (`Quorum.NormalisedAgreement`). This is not a bound on faulty replicas: instances are kept by batch and
  not by number, so a correct replica takes part in two batches at one number when a faulty primary proposes both. In a
  view with a correct primary only faulty replicas announce twice (`Protocol.HonestDoNotEquivocate`); with a faulty one,
  for every N and every Q from 3 on, that single faulty replica is enough for two correct replicas to deliver different
  batches, with no more double announcers than two quorums must share (`Sharpness.BoundIsSharp`).
- An instance passes its phases in order, each on its quorums, at every moment of every run if and only if no proposal
  renumbers an instance against its votes (`Protocol.RunCertified`), which happens even without faulty replicas
  (`Sharpness.CertificateLost`); and renumbered or not, every committed batch stands
  on Q prepare votes and Q commit votes really sent for it (`Protocol.CommittedStandsOnQuorums`).
- Any order and repetition of stored batches is delivered without gaps, once, in order, if and only if the wrap-around of
  seqNo - K reaches no batch still to be handed on (`Delivery.ExactlyOnceInOrder`); the window holds at most 2K batches
  (`Delivery.WindowKept`, `Delivery.WindowOverRun`).
- The sequencing gate runs the functions one at a time in order and never closes a channel twice, in every interleaving
  (`Gate.RunsInTurn`, `Gate.NeverClosedTwice`); notify releases exactly the call it is meant for (`Gate.NotifyReleases`).
- A value survives the codec, with everything behind it untouched, exactly when it is canonical (`Codec.RoundTrip`), and
  the bytes written are the only ones the format allows (`Codec.EncodeLaid`, `Codec.LaidUnique`).
- A view begins at numbers no voter of its quorum had passed, and gives out exactly the numbers behind them
  (`Election.Elector.Install`, `Protocol.ViewNumbers`); lastSeqNo is the largest number added if and only if none is 2^63
  away (`Delivery.LastIsLargest`).
- A fetch leaves a pending transaction behind only when no group can take it (`Grouping.Validator.FetchGroupingTxsInTxPool`),
  and the nonces accepted by an account follow the stored one without a gap (`Pool.NoncesFromStored`).
- Each cache refines "apply every operation directly", with the exact cases in which it does not
  (`Balances.CacheRefines`, `Balances.CallRefines`, `ContractState.PersistedIsDirect`, `Transfers.ExecutableExact`,
  `Transfers.SendExact`).

Conventions. SHA-256 is taken to be collision-free, so a batch, ticket or transaction stands for its digest, and a
message carries its true sender. Each handler and each locked section is one atomic step; time-outs are steps without a
cause; `log.Panicf` ends the run of a replica. A map that Go iterates in random order is visited in an arbitrary order.
Integers are unbounded and every wrap-around the code relies on is written out (`Words`). What a clock, the network, the
transaction verifier or a failing database contributes is a parameter.

Where code and comments disagree the model follows the code:

- `updateLastHeightNum` compares an unsigned difference, so lastHeight is the last height assigned, not the largest.
- A parent's `GetState` falls through to the database after a delete in the same block (`ContractState.NodeReadExact`).
- A transfer whose recipient cannot be read returns an error with the sender already debited
  (`Balances.InterruptedTransfer`, exact condition in `Balances.CallRefines`).
- A contract that pays itself, or spells a recipient in another way, gets a wrong cached balance
  (`Transfers.SendExact` is the exact condition), and one that pays itself can spend what it does not have
  (`Transfers.SelfPaymentFails`, exact condition in `Transfers.ExecutableExact`).
- Two contracts whose addresses have different lengths can meet on one key of the database, and then the order of a map
  decides what is persisted (`ContractState.OrderDecides`, exact condition in `ContractState.PersistedIsDirect`).
- handleRequestBatch renumbers an instance whatever its phase (`Phases.RenumberingBreaks`, exact condition in
  `Phases.RequestBatchKeepsCertified`).
- A first block that begins with a batch of another chain is written with the height of that batch
  (`Blocks.RemoteFirst`, exact condition in `Blocks.OutputHeight`).
- An orphan whose turn has come is dropped when the balance does not cover it (`Pool.OrphanLost`, `Pool.OfferedAgain`).
- A local batch of height 0 joins the block of the next height (`Blocks.ZeroHeightMixes`, `Blocks.OneHeightExact`).

`dafny verify dfyconfig.toml` checks the whole project.

## Model

| member | source | states |
|---|---|---|
| `Votes.Vote.Add` | components/utils/vote/vote.go:65-76 | the first ticket of a voter is recorded and later ones are ignored; the statistics stay the number of voters per key |
| `Votes.AddTallied` | components/utils/vote/vote.go:71-74 | recording one ticket keeps statistics equal to the number of supporters of every key, and every counted key has a ticket of its own |
| `Votes.Vote.Clear` | components/utils/vote/vote.go:49-55 | an empty, correct tally |
| `Votes.Vote.Voter` | components/utils/vote/vote.go:79-94 | a ticket really cast with the largest number of supporters and that number, whatever the order of the map; nothing when there are no tickets |
| `Votes.Vote.VoterByVoter` | components/utils/vote/vote.go:97-105 | the ticket of the voter and how many voters share its key; zero for an unknown voter |
| `Votes.Vote.VoterByTicket` | components/utils/vote/vote.go:108-112 | the number of voters behind the key of the ticket, zero for an unknown key |
| `Votes.QuorumIntersection` | core/consensus/lbft/lbft.go:72-80 | two quorums of size q out of at most n voters share at least 2q - n |
| `Votes.DisjointSupporters` | components/utils/vote/vote.go:65-76 | supporters of different keys are disjoint |
| `Messages.PhaseKeyExact` | core/consensus/lbft/serialize.go:51-67 | prepare and commit votes are counted together if and only if they agree in everything but the sender |
| `Messages.CommittedKeyExact` | core/consensus/lbft/serialize.go:69-76 | the same for announcements |
| `Quorum.NormalisedQuorum` | core/consensus/lbft/lbft.go:72-80 | fewer than four replicas are refused; for every N >= 4 and every configured Q: 3Q + 1 >= 2N, 3(2Q - N) >= N - 2, 2Q - N >= 1, Q >= 3, normalising twice is normalising once, Q is replaced exactly when 3Q + 1 < 2N, and then by the least with 3Q >= 2N |
| `Quorum.NormalisedAgreement` | core/consensus/lbft/lbft.go:72-80 | with the normalised quorum logs agree while fewer than (N - 2) / 3 replicas equivocate |
| `Announcements.CommittedVotes.IsBehind` | core/consensus/lbft/lbft.go:808-810 | whether a leading ticket of the tally is already executed |
| `Announcements.CommittedVotes.Survivors` | core/consensus/lbft/lbft.go:807-813 | exactly the tallies whose leading ticket is still to come stay, whatever the order of the map |
| `Announcements.CommittedVotes.Clean` | core/consensus/lbft/lbft.go:804-815 | a late announcement closes the tally of its name and those already executed, and changes no other |
| `Announcements.CommittedVotes.VoteFor` | core/consensus/lbft/lbft.go:817-821 | one vote object per name, made when it is missing |
| `Announcements.CommittedVotes.Record` | core/consensus/lbft/lbft.go:817-822 | the ticket enters the tally of its name, once per voter, and every other tally stays |
| `Announcements.CommittedVotes.Count` | core/consensus/lbft/lbft.go:817-827 | the ticket is recorded under its name; the batch is passed on, and the tally closed, exactly when Q voters announced it |
| `Announcements.CommittedVotes.RecvCommitted` | core/consensus/lbft/lbft.go:803-828 | the tallies after any announcement, early or late; one correct vote object per name is kept |
| `Protocol.ReceivedIsStep` | core/consensus/lbft/lbft.go:570-579 | behind the guards of handleConsensusMsg this is the step of the protocol |
| `Protocol.ChosenTwice` | core/consensus/lbft/lbft.go:817-827 | two batches announced by Q replicas each at one seqNo need 2Q - N replicas that announced both |
| `Protocol.RunBacked` | core/consensus/lbft/lbft.go:803-859 | in every reachable state all tallies hold tickets really sent by their voter, and every batch queued, stored or delivered was announced at its seqNo by Q replicas |
| `Protocol.LogAgreement` | core/consensus/lbft/lbft.go:803-859 | over all runs and views, with fewer than 2Q - N equivocating replicas any two replicas delivered the same batch at every seqNo both delivered |
| `Sharpness.BoundIsSharp` | core/consensus/lbft/lbft-core.go:213-375 | for every set of replicas, every primary among them, every Q from 3 to N and any two batches of this chain there is a run in which only the primary is faulty, exactly max(0, 2Q - N) replicas equivocate and two correct replicas deliver different batches at one seqNo |
| `Sharpness.EquivocatorsAre` | core/consensus/lbft/lbft.go:803-828 | in that run exactly the replicas in both quorums equivocate |
| `Sharpness.Deliver` | core/consensus/lbft/lbft.go:803-859 | a replica that hears Q announcements of one batch reaches a state in which it has delivered it |
| `Sharpness.Through` | core/consensus/lbft/lbft-core.go:213-375 | a batch proposed by a faulty primary goes through pre-prepare, prepare and commit at any Q replicas, all correct but the primary, and is announced by exactly them, leaving everything else as it was |
| `Protocol.RunFaithful` | core/consensus/lbft/lbft-core.go:161-375 | in one view with a correct primary, from any numbers on, every instance holds the batch it is named after, and every instance, pending announcement, queue, map and log of every replica holds only batches the primary proposed at that seqNo |
| `Protocol.SingleViewValidity` | core/consensus/lbft/lbft-core.go:161-375 | with a correct primary and fewer than Q faulty replicas every batch handed on at s is the only batch the primary proposed at s, even when batches are submitted again |
| `Protocol.HonestDoNotEquivocate` | core/consensus/lbft/lbft-core.go:161-375 | in such a view only faulty replicas announce two batches at one seqNo |
| `Protocol.ViewNumbers` | core/consensus/lbft/lbft.go:953-966 | in one view with a correct primary exactly the numbers above the one the view began with, up to its counter, have been proposed |
| `Protocol.DeliveredInView` | core/consensus/lbft/lbft.go:953-966 | every batch handed on in such a view carries one of these numbers |
| `Protocol.RunCertified` | core/consensus/lbft/lbft-core.go:161-375 | over every run: at every moment each instance of a replica passed its phases in order, each on its quorums for its number and digest, if and only if the replica never renumbers an instance against its votes |
| `Protocol.StepCertified` | core/consensus/lbft/lbft-core.go:161-375 | of all steps exactly the proposals that renumber a prepared instance without early quorums for the new number, or an instance of other chains, destroy a certificate |
| `Protocol.RunSupported` | core/consensus/lbft/lbft-core.go:161-375 | over every run, renumbered or not: an instance that holds the batch it is named after passed each phase on quorums for this batch, out of votes really sent |
| `Sharpness.CertificateLost` | core/consensus/lbft/lbft-core.go:161-170 | without any faulty replica, for every set of replicas, every Q from 3 to N and every batch of this chain, a run in which the primary handles the batch twice and a certificate is lost |
| `Protocol.CommittedStandsOnQuorums` | core/consensus/lbft/lbft-core.go:293-491 | a committed instance of this chain stands on Q distinct replicas that sent a prepare and Q that sent a commit for its batch, under one number per phase: its own, unless it was renumbered against its votes |
| `Protocol.CrossChainStandsOnQuorums` | core/consensus/lbft/lbft-core.go:407-430 | a committed cross-chain instance stands, in each phase and for each chain, on one ticket really sent by as many replicas as the quorum it states, and no replica counts for both chains |
| `Phases.LbftCore.BestTicket` | core/consensus/lbft/lbft-core.go:383-401 | the largest number of voters behind one matching ticket and the quorum that ticket states; zero only when none matches |
| `Phases.LbftCore.SideReached` | core/consensus/lbft/lbft-core.go:383-405 | passes only with a quorum ticket for this chain, and exactly then when all tickets state one quorum |
| `Phases.LbftCore.QuorumsReached` | core/consensus/lbft/lbft-core.go:382-430 | the same for both chains of a cross-chain instance |
| `Phases.LbftCore.MaybePreparePass` | core/consensus/lbft/lbft-core.go:377-434 | sets the flag only behind pre-prepare and on the prepare quorums, and exactly then with a uniform quorum |
| `Phases.LbftCore.MaybeCommitPass` | core/consensus/lbft/lbft-core.go:436-491 | sets the flag only behind prepare and on the commit quorums, and exactly then with a uniform quorum |
| `Phases.LbftCore.RecordPrepare` | core/consensus/lbft/lbft-core.go:314-314 | the vote enters the ballot once |
| `Phases.LbftCore.RecordCommit` | core/consensus/lbft/lbft-core.go:353-353 | the vote enters the ballot once |
| `Phases.LbftCore.Adopt` | core/consensus/lbft/lbft-core.go:217-278 | a batch is adopted once and only if legal and verified (the primary excepted); chains and seqNo are set before the checks |
| `Phases.LbftCore.HandlePrePrepare` | core/consensus/lbft/lbft-core.go:213-291 | a fresh backup adopts a verified batch if and only if it closes a block without requests, or its first request comes from this chain, or it is no block-closing batch, has an index and goes to this chain; the primary adopts its own; exactly then the own prepare vote is sent, batch and digest are set, and what follows from the vote; number and chains are set in any case |
| `Phases.LbftCore.HandlePrepare` | core/consensus/lbft/lbft-core.go:293-330 | a vote of another chain, digest or number than the instance changes nothing, any other one is recorded once; the phase passes only on the prepare quorums, and with a uniform quorum as soon as they are there; then the own commit vote is cast and sent, once |
| `Phases.LbftCore.HandleCommit` | core/consensus/lbft/lbft-core.go:332-375 | likewise for commit votes; when the phase passes the batch is announced under the number of the instance, once |
| `Phases.LbftCore.Renumber` | core/consensus/lbft/lbft-core.go:161-170 | the number and the chains of the first request are overwritten, whatever the phase |
| `Phases.LbftCore.HandleRequestBatch` | core/consensus/lbft/lbft-core.go:161-211 | the batch is numbered and handled as its own pre-prepare, which is sent even when the instance was already pre-prepared |
| `Phases.PrePrepareKeepsCertified` | core/consensus/lbft/lbft-core.go:213-291 | handlePrePrepare keeps "flags in order, each on its quorums for this seqNo and digest" |
| `Phases.PrepareKeepsCertified` | core/consensus/lbft/lbft-core.go:293-330 | handlePrepare keeps it |
| `Phases.CommitKeepsCertified` | core/consensus/lbft/lbft-core.go:332-375 | handleCommit keeps it |
| `Phases.RequestBatchKeepsCertified` | core/consensus/lbft/lbft-core.go:161-211 | handleRequestBatch keeps the certificates if and only if it does not renumber the instance against its votes |
| `Phases.RenumberedExact` | core/consensus/lbft/lbft-core.go:161-170 | without early votes for other numbers: if and only if the instance is not prepared or keeps its number |
| `Phases.RenumberingBreaks` | core/consensus/lbft/lbft-core.go:161-170 | a batch prepared at 1 by three votes that loses its certificate when it is submitted again |
| `Phases.CommitCertificate` | core/consensus/lbft/lbft-core.go:436-462 | a committed instance has Q distinct preparers and Q distinct committers of its seqNo and digest |
| `Phases.CrossChainCertificate` | core/consensus/lbft/lbft-core.go:407-430 | a committed cross-chain instance has in each phase, for each chain, a ticket cast by as many voters as the quorum it states, and the voters of the two chains are disjoint |
| `Delivery.FirstResult` | core/consensus/lbft/lbft.go:158-162 | the first batch added is delivered at once, whatever its seqNo |
| `Delivery.CheckpointSpec` | core/consensus/lbft/lbft.go:874-911 | checkpoint hands on exactly the gap-free run of keys above execSeqNo, in order, and deletes exactly the keys K below a visited one, modulo 2^64, as long as no key still to be handed on is hit |
| `Delivery.AddFromStore` | core/consensus/lbft/lbft.go:830-911 | whatever wraps, only batches that were stored are handed on or kept |
| `Delivery.ExactlyOnceInOrder` | core/consensus/lbft/lbft.go:830-911 | for any order and duplication of calls: after every call the stream is the consecutive seqNos from the first one added, each once, labelled with itself, carrying the first batch offered, and as long as possible, if and only if the first number is not 0 and no addition is hit by the wrap-around |
| `Delivery.AddExact` | core/consensus/lbft/lbft.go:889-900 | one addition keeps the order if and only if no visited key r < K has a stored key r - K + 2^64 above execSeqNo, and 0 is not stored at execSeqNo 2^64 - 1 |
| `Delivery.InOrderFarFromWrap` | core/consensus/lbft/lbft.go:830-911 | in particular always, when no number is within K of 2^64 or none is below K |
| `Delivery.ZeroTwice` | core/consensus/lbft/lbft.go:158-162 | a batch added first under the number 0 is handed on twice |
| `Delivery.WindowKept` | core/consensus/lbft/lbft.go:874-920 | an addition above execSeqNo that does not panic keeps the last K delivered batches and drops nothing inside the window if and only if no wrapped deletion hits a key; then at most 2K are stored |
| `Delivery.NoHitForSmallK` | core/consensus/lbft/lbft.go:892-894 | no addition is hit for K below a third of 2^64 |
| `Delivery.WindowOverRun` | core/consensus/lbft/lbft.go:874-920 | the window after every checkpoint of a run of such additions |
| `Delivery.ReAddWindow` | core/consensus/lbft/lbft.go:889-894 | an addition at or below execSeqNo keeps the window if and only if the key is inside it or the key K above it is stored |
| `Delivery.WrapDropsUndelivered` | core/consensus/lbft/lbft.go:892-894 | next to 2^64 the wrap of seqNo - K deletes a batch that was never delivered |
| `Delivery.CommittedStore.SortedKeys` | core/consensus/lbft/lbft.go:880-884 | the keys of the map in ascending order |
| `Delivery.CommittedStore.ScanKeys` | core/consensus/lbft/lbft.go:888-911 | the loop of checkpoint as a fold over the keys up to the first gap |
| `Delivery.CommittedStore.Checkpoint` | core/consensus/lbft/lbft.go:874-920 | the new state is the specified checkpoint, the panic is reported exactly when a key lies more than K behind the next one, and the missing batch is asked for exactly when a later one is stored |
| `Delivery.CommittedStore.AddCommitted` | core/consensus/lbft/lbft.go:830-859 | a seqNo already stored changes nothing; otherwise lastSeqNo and verifySeqNo become the larger of old value and seqNo when these are less than 2^63 apart, the height is taken over and the checkpoint runs |
| `Delivery.Raised` | core/consensus/lbft/lbft.go:183-206 | the larger of two numbers up to a distance of 2^63, the smaller one beyond |
| `Delivery.LastIsLargest` | core/consensus/lbft/lbft.go:830-845 | over any run of additions: lastSeqNo is at every moment the largest of its start and all numbers added if and only if every addition is ignored or less than 2^63 from the number it meets |
| `Delivery.LastOfTogether` | core/consensus/lbft/lbft.go:830-845 | in particular when all numbers lie within 2^63 of each other |
| `Delivery.CommittedStore.DrainCommitted` | core/consensus/lbft/lbft.go:674-677 | what is queued is added before a view change reports its numbers, in order and up to a panic; lastSeqNo is then the largest number queued or known |
| `Gate.NotifiedAllEffect` | core/consensus/lbft/asyncseqno.go:84-103 | after notifyAll no key up to the number has an open channel, and no other key changed |
| `Gate.NeverClosedTwice` | core/consensus/lbft/asyncseqno.go:40-103 | in every interleaving, with repeated waits and any notify or notifyAll, no channel is closed twice |
| `Gate.RunsInTurn` | core/consensus/lbft/asyncseqno.go:40-73 | in every interleaving of waits with different numbers the functions start+1, start+2, ... run one after the other, each to its end |
| `Gate.SuccessorReleased` | core/consensus/lbft/asyncseqno.go:57-71 | once s has finished an entered s+1 is not blocked |
| `Gate.NotifyReleases` | core/consensus/lbft/asyncseqno.go:75-82 | in every interleaving with any notify and notifyAll in which no number is waited on twice, notify(s) releases the call s that waits for s - 1, and no other one |
| `Gate.StepWaits` | core/consensus/lbft/asyncseqno.go:40-103 | a step leaves every blocked call on a channel that can still be closed if and only if no call leaves while another one with its number waits |
| `Gate.RunWaits` | core/consensus/lbft/asyncseqno.go:40-103 | so it is in every interleaving in which no number is waited on twice |
| `Gate.StrandedCall` | core/consensus/lbft/asyncseqno.go:67-67 | with a number waited on again a call is left behind that notify does not release |
| `Gate.SomeCallCanMove` | core/consensus/lbft/asyncseqno.go:40-73 | while the entered calls are gap-free and one is unfinished, a call can move |
| `Gate.AsyncSeqNo.MakeIfMissing` | core/consensus/lbft/asyncseqno.go:46-54 | a channel is made only for a missing key |
| `Gate.AsyncSeqNo.CloseAndForget` | core/consensus/lbft/asyncseqno.go:68-71 | an open channel is closed and its entry set to nil |
| `Gate.AsyncSeqNo.EnterWait` | core/consensus/lbft/asyncseqno.go:40-55 | the first locked section of wait and the channel to wait on |
| `Gate.AsyncSeqNo.LeaveWait` | core/consensus/lbft/asyncseqno.go:66-72 | the second locked section of wait |
| `Gate.AsyncSeqNo.NotifyOne` | core/consensus/lbft/asyncseqno.go:75-82 | the channel of the predecessor is closed |
| `Gate.AsyncSeqNo.NotifyUpTo` | core/consensus/lbft/asyncseqno.go:94-102 | the loop of notifyAll over its sorted keys |
| `Election.UniqueWinner` | core/consensus/lbft/lbft.go:754-757 | with at most N voters and 2Q > N at most one key reaches Q, so the choice does not depend on the order of the map |
| `Election.TallyKeeps` | core/consensus/lbft/lbft.go:713-725 | after any ticket all recorded tickets naming one primary agree on SeqNo and Height, these were sent together in one ticket, and none is below what its voter reported |
| `Election.Elector.Raise` | core/consensus/lbft/lbft.go:714-725 | whatever the order of the map, the tickets naming this primary and the new one end at the higher SeqNo with its Height, and no other ticket changes |
| `Election.Elector.Record` | core/consensus/lbft/lbft.go:713-713 | the ticket is recorded and counted once |
| `Election.Elector.Tally` | core/consensus/lbft/lbft.go:713-725 | recording and raising in place is the specified count, and statistics stay the number of voters per key |
| `Election.Elector.Count` | core/consensus/lbft/lbft.go:713-753 | the ballot invariant survives a ticket; primary and instances go when it completes Q |
| `Election.Elector.StepDown` | core/consensus/lbft/lbft.go:727-744 | the primary is given up, and all instances are removed, exactly when the ballot holds Q tickets |
| `Election.Elector.WinnerCovers` | core/consensus/lbft/lbft.go:754-757 | no supporter of a recorded ticket reported more than its SeqNo |
| `Election.Elector.Decide` | core/consensus/lbft/lbft.go:754-757 | a view is installed exactly when a quorum names one primary, the only such one with fewer than 2Q voters, so whatever the order of the map; it has at least Q voters and begins at numbers that cover their reports |
| `Election.Elector.Install` | core/consensus/lbft/lbft.go:754-757 | the view of a ticket with Q voters: lastSeqNo, verifySeqNo and both gates are its SeqNo, hence not below what any of its voters reported, lastHeight is its Height, and a new primary has given out exactly SeqNo + 1 |
| `Election.Elector.NewView` | core/consensus/lbft/lbft.go:760-801 | the ballot is cleared; for a new primary lastSeqNo, verifySeqNo and both gates become its SeqNo and lastHeight its Height, the instances are removed, and the primary itself submits the batch that closes a block under the next number and height; otherwise nothing else changes |
| `Election.Elector.SubmitBatch` | core/consensus/lbft/lbft.go:953-966 | the batch gets the next number and an instance; over any sequence of calls the k-th batch of a view carries SeqNo + k, modulo 2^64 |
| `Election.NumbersAbove` | core/consensus/lbft/lbft.go:198-200 | all numbers given in a view are above the one it began with if and only if the counter has not wrapped |
| `Election.Elector.Receive` | core/consensus/lbft/lbft.go:713-757 | the ballot after one more ticket: cleared with the elected primary exactly when a quorum names one, otherwise the ticket recorded with what it reported |
| `Election.Elector.RecvViewChange` | core/consensus/lbft/lbft.go:702-758 | the ballot invariant holds after any sequence of calls; a ticket of another chain changes nothing; one in which the primary asks to be elected again is counted after the own vote; the numbers are those the last installed view begins with |
| `Election.Elector.SendViewChange` | core/consensus/lbft/lbft.go:670-700 | one vote per ballot, for the proposed ticket as it stands or for itself with lastSeqNo and lastHeight, counted like any other; a second call changes nothing |
| `Blocks.NothingLost` | core/consensus/lbft/lbft.go:304-328 | the written blocks followed by the pending one are the delivered stream in order |
| `Blocks.OneHeightExact` | core/consensus/lbft/lbft.go:313-322 | local batches of a block share one height if and only if no local batch of height 0 comes directly before one of another height; always for heights from 1 on |
| `Blocks.ZeroHeightMixes` | core/consensus/lbft/lbft.go:314-316 | a block with heights 0 and 1 |
| `Blocks.BlocksWellCut` | core/consensus/lbft/lbft.go:313-325 | a block ends only where a local batch brings another height, and that batch begins the next block; no block is empty |
| `Blocks.OutputHeight` | core/consensus/lbft/lbft.go:354-356 | the height written is that of all local batches of the block if and only if they share one and a remote batch that begins the first block has it too |
| `Blocks.RemoteFirst` | core/consensus/lbft/lbft.go:354-356 | a first block written with the height of a batch of another chain |
| `Blocks.Cutter.Take` | core/consensus/lbft/lbft.go:313-325 | the batch is gathered; what was gathered before is written first exactly when it closes a block or comes from this chain with another height than the one being filled |
| `Blocks.Cutter.WriteBlock` | core/consensus/lbft/lbft.go:330-358 | a non-empty block is written with the height of its first batch; an empty one is not |
| `Blocks.Cutter.OutputsOf` | core/consensus/lbft/lbft.go:339-353 | every batch in order with its transactions; exactly the first batch of this chain is marked to be skipped |
| `Blocks.Cutter.CollectTransactions` | core/consensus/lbft/lbft.go:342-346 | the transactions of the requests in order |
| `Varint.VarIntInverse` | components/utils/varlen.go:31-96 | every 64-bit number is read back and the bytes behind it are untouched |
| `Varint.VarIntShortest` | components/utils/varlen.go:31-61 | of all byte strings that read as n, VarInt(n) is the only shortest one |
| `Varint.VarIntBytes` | components/utils/varlen.go:31-61 | the bytes of every number, tag and digits written out |
| `Varint.VarIntCut` | components/utils/varlen.go:69-96 | a number that is cut off is always reported |
| `Codec.RoundTrip` | components/utils/encoding.go:38-254 | for every type, value and following bytes: the decoded value is the encoded one if and only if it is canonical, and then exactly the following bytes are left and the error is the predicted one |
| `Codec.ItemsRoundTrip` | components/utils/encoding.go:95-100 | the same for the elements of a slice |
| `Codec.FieldsRoundTrip` | components/utils/encoding.go:143-145 | the same for the fields of a struct |
| `Codec.NilRead` | components/utils/encoding.go:240-251 | the byte of a nil pointer makes decoding fail exactly for byte arrays and pointers to them |
| `Codec.NumberRoundTrip` | components/utils/encoding.go:146-153 | unsigned and signed numbers of every width survive |
| `Codec.BytesRoundTrip` | components/utils/encoding.go:158-175 | strings, byte slices and byte arrays survive; an empty array reports an error |
| `Codec.BigRoundTrip` | components/utils/encoding.go:226-239 | a big integer comes back as its absolute value, a nil one as zero |
| `Codec.PrefixFree` | components/utils/encoding.go:38-123 | encodings of one type are prefix-free, hence injective |
| `Codec.PlainCanonical` | components/utils/encoding.go:38-254 | every value of a type without pointers and big integers survives |
| `Codec.NilTextLost` | components/utils/encoding.go:247-250 | a nil string pointer comes back as a pointer to the empty string |
| `Codec.RecursiveEncode` | components/utils/encoding.go:38-86 | the writer gets exactly the bytes the format puts down, digit by digit: numbers, flags, lengths, bytes, elements and fields in order, magnitudes and nil |
| `Codec.EncodeLaid` | components/utils/encoding.go:38-123 | every encoding is laid out as the format says: a number below 0xFD is that byte, one below 2^16 is 0xFD and two bytes lowest first, and so on; text behind its length, elements behind their number, fields and targets as they are |
| `Codec.LaidUnique` | components/utils/encoding.go:38-123 | the format leaves no choice: it determines the bytes of every value |
| `Codec.CutOff` | components/utils/encoding.go:134-185 | every proper prefix of an encoding is reported for numbers, flags, bytes, arrays and big integers; a text is filled up with zeros without an error once its length was read |
| `Codec.OtherLength` | components/utils/encoding.go:159-170 | a byte array refuses every other length, keeps zeros and leaves what follows |
| `Codec.WriteItems` | components/utils/encoding.go:96-100 | the loop over the elements |
| `Codec.WriteFields` | components/utils/encoding.go:40-44 | the loop over the fields |
| `Codec.RecursiveDecode` | components/utils/encoding.go:134-185 | the reader loses exactly the bytes of the specified decoding, and the target holds its value |
| `Codec.DecodeCounted` | components/utils/encoding.go:146-175 | the types that begin with a length or number |
| `Codec.ReadItems` | components/utils/encoding.go:208-211 | the loop over the elements, reporting the last error |
| `Codec.ReadFields` | components/utils/encoding.go:143-145 | the loop over the fields, dropping their errors |
| `Codec.Reader.NextVarInt` | components/utils/varlen.go:69-96 | the tag byte and the 2, 4 or 8 bytes behind it give back every number VarInt wrote, with the bytes behind it untouched; a short stream gives an error and zeros |
| `Codec.Reader.Fill` | components/utils/encoding.go:161-162 | exactly n bytes, or an error with the rest of the stream and zeros |
| `Codec.LittleEndianNumber` | components/utils/varlen.go:84-92 | the number of 2, 4 or 8 bytes, lowest first |
| `Codec.ThroughBuffer` | components/utils/encoding.go:256-267 | Serialize and Deserialize give back exactly the canonical values |
| `Balances.StoredIsDecoded` | core/ledger/state/balance.go:39-47 | a balance comes back from the database with its sign dropped, hence unchanged exactly when it is not negative |
| `Balances.CallRefines` | core/ledger/state/state.go:60-158 | for every call, amount and database failure: success only if the direct operation is allowed (and if, when reads work), then the cache shows its result; a failure shows no change if and only if the call is not half done |
| `Balances.CallMoves` | core/ledger/state/state.go:60-158 | a successful call shows every account as before but its parties: an update by its amount (and fee and nonce when it takes), a transfer by amount and fee at the sender, under the new nonce, and by the amount at the recipient |
| `Balances.InterruptedTransfer` | core/ledger/state/state.go:139-146 | a failing transfer with the sender debited |
| `Balances.DirectNonNegative` | core/ledger/state/state.go:116-158 | no allowed operation with non-negative amount and fee makes an account negative |
| `Balances.EmitsDirect` | core/ledger/state/state.go:151-157 | writing the batches of a successful call is the direct operation |
| `Balances.CacheRefines` | core/ledger/state/state.go:60-187 | after any run the cache shows the successful calls applied directly, the emitted batches turn the database into the same table, and no account is negative |
| `Balances.FlushKeepsView` | core/ledger/state/state.go:178-187 | writing the batches and dropping the cache shows what the cache showed |
| `Balances.DirectConserves` | core/ledger/state/state.go:116-158 | a transfer lowers the total of any group that holds both parties by exactly the fee; updates change it by their amount |
| `Balances.TotalOverRun` | core/ledger/state/state.go:60-187 | the total after a run is the initial one changed by the successful calls |
| `Balances.State.GetTmpBalance` | core/ledger/state/state.go:161-175 | reads through the cache and remembers |
| `Balances.State.UpdateBalance` | core/ledger/state/state.go:60-89 | the call as specified |
| `Balances.State.Transfer` | core/ledger/state/state.go:116-158 | the call as specified |
| `Balances.State.Credit` | core/ledger/state/state.go:143-157 | the second half of a transfer as specified, with the sender already debited |
| `Balances.State.AtomicWrite` | core/ledger/state/state.go:178-187 | all batches are written in order and the cache dropped, or nothing happens |
| `Balances.State.CheckBalance` | core/ledger/state/state.go:190-209 | whether the result would not be negative |
| `Queues.Fifo.Offer` | vm/callstack.go:47-49 | appended behind everything queued |
| `Queues.Fifo.Poll` | vm/callstack.go:51-58 | the oldest element leaves; nothing from an empty queue |
| `ContractState.FullKeyInjective` | core/ledger/contract/utils.go:27-30 | keys of contracts with addresses of one length determine contract and key |
| `ContractState.FullKeysMeet` | core/ledger/contract/utils.go:27-30 | with addresses of different lengths two keys coincide |
| `ContractState.RecordedLast` | core/ledger/contract/state_extra.go:42-94 | the deltas hold, for every contract and every full key, exactly its last change |
| `ContractState.WrittenLatest` | core/ledger/contract/contract.go:195-213 | a batch leaves under each key what the last contract visited that has the key left there |
| `ContractState.PersistedIsDirect` | core/ledger/contract/contract.go:195-213 | for contracts of any addresses: every batch the loops may build, whatever the order of the maps, leaves the database as if every change had been applied directly, if and only if all contracts that touched one full key left the same last operation on it |
| `ContractState.OneLengthUnanimous` | core/ledger/contract/utils.go:27-30 | contracts with addresses of one length always satisfy that condition |
| `ContractState.OrderDecides` | core/ledger/contract/contract.go:195-213 | two contracts that put values under one full key: visited in the other order, the earlier value is persisted |
| `ContractState.PersistedByChance` | core/ledger/contract/contract.go:195-213 | such an input: contracts "a" and "a|b" |
| `ContractState.NodeReadExact` | core/ledger/contract/contract.go:106-124 | the node reads the latest value if and only if the last change on the key is the contract's own and does not hide a value of the database by deleting or emptying it, or is another contract's and leaves what the node can see |
| `ContractState.DeletedKeyStillRead` | core/ledger/contract/contract.go:111-121 | a key deleted in this block reads as its old value |
| `ContractState.BufferAnnouncesDirect` | vm/invoke.go:98-130 | over any earlier changes of the block, what the VM process reads is what the database holds once all changes are applied, if and only if the contract wrote the key in this run or the node's answer is right; committing adds the run to the deltas |
| `ContractState.SmartContract.AddState` | core/ledger/contract/contract.go:127-134 | the operation is recorded over any earlier one on the key |
| `ContractState.SmartContract.DelState` | core/ledger/contract/contract.go:137-143 | likewise |
| `ContractState.SmartContract.Receive` | vm/vm.go:195-210 | the two requests of the VM process |
| `ContractState.SmartContract.GetState` | core/ledger/contract/contract.go:106-124 | deltas first, then the database; an error exactly when the deltas give nothing and the database fails |
| `ContractState.SmartContract.AddChangesForPersistence` | core/ledger/contract/contract.go:195-213 | every contract is visited once and every entry of it taken once, whatever the order of the maps |
| `ContractState.SmartContract.TakeAll` | core/ledger/contract/contract.go:198-209 | the inner loop |
| `ContractState.VmState.CCallGetState` | vm/invoke.go:98-110 | the last operation of this run on the key, else the node's answer; an error exactly for a forbidden key |
| `ContractState.VmState.CCallPutState` | vm/invoke.go:112-120 | accepted exactly within the limits; then buffered and queued behind the earlier ones |
| `ContractState.VmState.CCallDelState` | vm/invoke.go:122-130 | likewise |
| `ContractState.VmState.CCallCommit` | vm/invoke.go:214-231 | the queue is drained, oldest first, into the node's deltas; a failing request is lost, what was sent before it stays, and the rest stays queued |
| `Transfers.AccountCanonical` | core/accounts/address.go:55-66 | every accepted spelling denotes an account with a canonical spelling |
| `Transfers.AddressForm` | vm/check.go:68-83 | an address is exactly 40 hexadecimal digits, behind 0x or not |
| `Transfers.SameAccount` | core/accounts/address.go:55-66 | two spellings denote one account if and only if their digits have the same values |
| `Transfers.SendExact` | vm/invoke.go:152-190 | an accepted transfer keeps the cache in step with the accounts of a group if and only if the recipient is another account, spelled canonically, and its balance stays in 64 bits |
| `Transfers.CoverExact` | vm/invoke.go:152-190 | an accepted transfer can be executed, and the accounts go on covering the cache if and only if the contract does not pay itself more than they hold |
| `Transfers.ExecutableExact` | vm/invoke.go:152-212 | for any spellings and balances: after every request the queue can be replayed without failing or overdrawing anybody and the accounts cover the cache, if and only if no accepted request is such a payment |
| `Transfers.Executable` | vm/invoke.go:152-212 | a contract that never names itself as recipient: the replay never fails and overdraws nobody |
| `Transfers.SelfPaymentFails` | vm/invoke.go:185-186 | a contract with 10 pays itself 10 and another account 20: both are accepted and the replay fails |
| `Transfers.EndsAtCache` | vm/invoke.go:152-212 | ordinary requests with balances that cannot leave 64 bits: the replay ends at the cached balances |
| `Transfers.CacheConserves` | vm/invoke.go:152-190 | cached balances of a group that holds everybody involved keep their total and the contract's is never negative |
| `Transfers.ReplayWithFee` | core/ledger/contract/contract.go:172-178 | with the fee the transactions carry, the replay succeeds if and only if the cached balance covers one fee per transfer, and only the contract ends lower |
| `Transfers.StateReplayRefines` | core/ledger/state/state.go:116-158 | the replay through State.Transfer over the account cache succeeds and ends like the direct one |
| `Transfers.VmTransfers.CCallGetBalances` | vm/invoke.go:132-144 | an error for anything that is no address; cache first, then the node cut to 64 bits |
| `Transfers.VmTransfers.CCallTransfer` | vm/invoke.go:152-190 | accepted if and only if the recipient is an address, the amount positive and covered by the cached balance and both balances can be had; then it is moved in the cache and queued; an error changes nothing |
| `Transfers.VmTransfers.CCallCommit` | vm/invoke.go:201-212 | the queue is drained, oldest first, into transfers of the contract with the fee and nonce of the current transaction; a failing request is lost and the rest stays queued |
| `Pool.PendingDistinct` | core/blockchain/validator.go:99-104 | pending transactions are all different |
| `Pool.AddKeeps` | core/blockchain/validator.go:68-135 | addTransaction keeps the pool invariant |
| `Pool.DrainSpec` | core/blockchain/validator.go:137-163 | the orphans taken have consecutive nonces from the next one on, a suffix stays, nothing that stays could be taken, and everything else was stale |
| `Pool.PushKeeps` | core/blockchain/validator.go:562-585 | a push, with the orphans drained first, keeps the invariant |
| `Pool.HeadKeeps` | core/blockchain/validator.go:206-210 | committing the head keeps the invariant |
| `Pool.ForeignCommitExact` | core/blockchain/validator.go:218-226 | committing a transaction that is not pending keeps the invariant if and only if the balance covers it and the nonce does not move under pending ones |
| `Pool.PoolInvariant` | core/blockchain/validator.go:68-217 | over every run pending nonces are consecutive and end below the next nonce, the map holds exactly the pending transactions, orphans are sorted and the balance is not negative |
| `Pool.NoncesFromStored` | core/blockchain/validator.go:57-66 | over every run, with c transactions committed, the pending one at i carries the stored nonce plus 1 + c + i, so the first nonce accepted is the one behind the stored one |
| `Pool.ValidatorAccount.constructor` | core/blockchain/validator.go:57-66 | an empty account with the stored balance, whose next nonce is the one behind the stored one |
| `Pool.PushHolds` | core/blockchain/validator.go:99-104 | balance plus pending sum is constant under pushes of any type |
| `Pool.OfferedAgain` | core/blockchain/validator.go:577-580 | of consecutive transactions offered again the covered ones become pending, the first uncovered one is dropped, the rest are orphans again |
| `Pool.SettledSplits` | core/blockchain/validator.go:577-580 | the same for the orphans a drain takes, for every account with sorted orphans of the checked types |
| `Pool.DrainEnds` | core/blockchain/validator.go:137-163 | a drain ends at the largest nonce |
| `Pool.OrphanLost` | core/blockchain/validator.go:147-153 | an orphan that is lost |
| `Pool.ValidatorAccount.AddTransaction` | core/blockchain/validator.go:68-135 | accepted if and only if nonce and balance allow it, an issue by its nonce alone, a merged or unknown one always; then pending, charged and the nonce moved; one that is too early becomes an orphan, any other one changes nothing |
| `Pool.ValidatorAccount.AddOrphan` | core/blockchain/validator.go:111-131 | inserted behind the last smaller nonce; the front is dropped above a million |
| `Pool.ValidatorAccount.ProcessOrphan` | core/blockchain/validator.go:137-163 | the loop as specified |
| `Pool.ValidatorAccount.Settle` | core/blockchain/validator.go:577-580 | drained orphans are offered again in order |
| `Pool.ValidatorAccount.Push` | core/blockchain/validator.go:574-584 | accepted exactly when acceptable after draining |
| `Pool.ValidatorAccount.Commit` | core/blockchain/validator.go:202-227 | the head leaves; a transaction that is not pending is charged and moves the nonce behind its own; one behind the head is a crash |
| `Grouping.OfferKeeps` | core/blockchain/validator.go:621-651 | the closure keeps the groups good: per destination its transactions in order, all groups full but the last, and the number of groups is the size asked for, capped |
| `Grouping.WalkKeeps` | core/blockchain/validator.go:261-267 | a walk takes a prefix of what it is offered and keeps the groups good |
| `Grouping.GroupsPartition` | core/blockchain/validator.go:663-677 | every transaction occurs in groups 1.. exactly as often as in group 0 |
| `Grouping.BoundedGroups` | core/blockchain/validator.go:663-677 | every group holds between one and max(1, limit) transactions of one destination |
| `Grouping.FetchStep` | core/blockchain/validator.go:243-268 | a walk returns the next stretch of everything ever accepted and leaves the cursor at its end |
| `Grouping.FetchedOnce` | core/blockchain/validator.go:243-268 | over any run of pushes, head commits and fetches everything returned sits at growing positions of the log: nothing twice, nonces in order |
| `Grouping.TourGood` | core/blockchain/validator.go:653-661 | whatever the order of the accounts, the groups are good and hold exactly the stretches walked, one account after the other |
| `Grouping.FetchedFits` | core/blockchain/validator.go:653-661 | with groups of a positive size never more than size times number transactions are there, so the walk never breaks off |
| `Grouping.TourStops` | core/blockchain/validator.go:243-268 | an account walked is at its end, or its next transaction needs a group beyond those asked for |
| `Grouping.FetchesDisjoint` | core/blockchain/validator.go:612-681 | two fetches with nothing pushed or committed in between return different transactions, over all accounts |
| `Grouping.Grouper.IterFunc` | core/blockchain/validator.go:621-651 | the transaction joins the last group of its destination while that has room and opens one otherwise; it is refused if and only if that would be more than the groups asked for |
| `Grouping.Grouper.IterTransaction` | core/blockchain/validator.go:243-268 | the walk from the cursor as specified |
| `Grouping.PlaceChain` | core/blockchain/validator.go:665-668 | all groups of a chain, once each, in an arbitrary order |
| `Grouping.Arrange` | core/blockchain/validator.go:663-677 | group 0 holds everything, local groups come first, every group appears once and the index never leaves the array |
| `Grouping.Validator.WalkAll` | core/blockchain/validator.go:653-661 | the walk over the accounts in an arbitrary order goes on to the last one, or until more than size times number transactions are there, and then ends at once |
| `Grouping.Validator.FetchGroupingTxsInTxPool` | core/blockchain/validator.go:612-681 | the whole fetch: good groups laid out in the array, group 0 exactly what the cursors passed, account by account; every account is walked unless groups have no positive size and more than size times number transactions are there; an account stops before its end only when all groups are in use and none of its next destination has room |
| `Netting.KeyInjective` | core/merge/merge.go:220-222 | keys determine both chains |
| `Netting.KeysGood` | core/merge/merge.go:224-229 | splitting a key gives both chains back |
| `Netting.NettedRight` | core/merge/merge.go:141-167 | for every pair of chains the table keeps the net amount in one entry and records each hash there, once and in order |
| `Netting.EmitStep` | core/merge/merge.go:174-177 | turning an entry into a transaction moves its signed amount to the result |
| `Netting.Emit` | core/merge/merge.go:169-186 | same net amount for every pair, non-negative amounts, at most one transaction per pair, every flow recorded under its pair |
| `Netting.AddTo` | core/merge/merge.go:151-162 | adding inside the first transaction of an entry changes no other entry |
| `Netting.Absorb` | core/merge/merge.go:143-167 | one round of the first loop |
| `Netting.Accumulate` | core/merge/merge.go:141-167 | the table is the specified one although amounts are added up in place |
| `Netting.MergerTx` | core/merge/merge.go:128-186 | the net of every pair of chains is preserved |
| `Release.KeyInjective` | core/merge/filter.go:148-148 | the cache key determines peer and hash |
| `Release.ReleasedPerMajority` | core/merge/filter.go:142-163 | over any run a hash is released exactly as often as its distinct reporters fill a majority |
| `Release.AtMostOnce` | core/merge/filter.go:142-163 | with at most peerNum peers it is released at most once, and if and only if more than half reported it |
| `Release.ChainCacheTable.NotFoundAdd` | core/merge/cache/cachetable.go:62-70 | whether the key was there, and then it is |
| `Release.ChainCacheTable.HandleTx` | core/merge/filter.go:142-163 | a first report of a peer is counted and remembered; the transaction goes on, and its counter is dropped, exactly when more than half the peers have reported it; no other counter changes |

## Left out

- Protocol.LogAgreement: cross-view safety without the bound on replicas that announce twice is not decided by the code, because view-change tickets carry no prepared certificates.
- Protocol.SingleViewValidity: for a view in which the primary's number does not wrap past 2^64 - 1.
- Protocol.RunCertified: handleRequestBatch is one step; between its first line and its pre-prepare the code waits at the gate, and two goroutines for one batch could interleave there.
- Phases.LbftCore.SideReached: for a remote chain the code does not compare digest and sequence number, so neither does the quorum for that chain.
- Delivery.ReAddWindow: for execSeqNo below 2^64 - 1 and no key hit by the wrap-around.
- Election.Elector.SendViewChange: draining lbftCoreCommittedChan before the vote is `Delivery.CommittedStore.DrainCommitted` and not tied to the numbers of the elector; the choice of the proposal by priority, the priority of a new primary and the timers are not modelled.
- Gate.NotifyReleases: for calls with different numbers; `Gate.StrandedCall` shows that this is needed.
- Codec.CutOff: for slices, structs and pointers the errors of their parts decide, as `Codec.DecodeItems` and `Codec.DecodeFields` say.
- Gate.RunsInTurn: waits and notifications are not tied to the instances in `Protocol`, where an announcement may come at any time after its instance committed.
- Codec.RoundTrip: decoding is into a fresh target; arrays of other types than bytes, uintptr, floats, maps, interfaces, unexported fields, recursive types and the allocation limits of make are not modelled.
- Balances.CacheRefines: for calls other than issue with non-negative amounts and fees, and without a database failure between debit and credit; `Balances.CallRefines` has no such limits.
- Transfers.EndsAtCache: for recipients other than the contract in canonical spelling and balances that cannot leave 64 bits; `Transfers.SendExact` shows that each is needed.
- Transfers.VmTransfers.CCallTransfer: an address of fewer than two characters crashes CheckAddr and is an error here.
- Pool.PoolInvariant: for the transaction types whose nonce and amount are both checked, commits of the head and at most 2^32 pending transactions.
- Grouping.FetchedOnce: for at most 2^32 transactions accepted by one account.
- Grouping.FetchesDisjoint: for accounts that list no transaction twice and share none, as Pool.PendingDistinct and the sender of a transaction give.
- Netting.MergerTx: transactions are different objects, as they come freshly decoded; a repeated object would be added to itself. Fees, which keep their sign when the direction turns, times and the parent coordinates of the merged transaction are not modelled.
- Release.AtMostOnce: a fixed number of peers, the callback set, no expiry of cached reports, hashes of one length.
- validatorAccount.checkExceptionTransaction and rollbackAndRemoveTransaction, whose list walks are partial.
- core/ledger/ledger.go block execution, which mixes contract calls, partial rollback and database writes.
- core/ledger/merge/storage.go, whose buffer is never cleared.
- Networking, process control, key stores, the database engine and the script engines.
