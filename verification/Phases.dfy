/** One consensus instance: pre-prepare, prepare, commit (core/consensus/lbft/lbft-core.go). */
module Phases {
  import opened Words
  import opened Messages
  import opened Votes

  const MIN_QUORUM: uint64 := 3

  type Ballot = map<string, PhaseVote>

  /** What the votes of an instance are about. */
  datatype Target = Target(fromChain: string, toChain: string, seqNo: uint64, digest: Digest)

  datatype Instance = Instance(prePrepared: bool, prepared: bool, committed: bool, batch: Option<RequestBatch>,
                               target: Target, prepareVotes: Ballot, commitVotes: Ballot)

  const FRESH: Instance :=
    Instance(false, false, false, None, Target("", "", 0, NoDigest), map[], map[])

  function FromOf(local: string, b: RequestBatch): string {
    if b.id == EMPTY_BLOCK then local else b.FromChain()
  }

  function ToOf(local: string, b: RequestBatch): string {
    if b.id == EMPTY_BLOCK then local else b.ToChain()
  }

  /** Lbft.isValid. */
  predicate ValidBatch(local: string, b: RequestBatch, from: bool) {
    if from then (b.id == EMPTY_BLOCK && b.requests == []) || b.FromChain() == local
    else b.id != EMPTY_BLOCK && b.ToChain() == local
  }

  /** Once pre-prepared, a vote must name one of the two chains, this digest and, on the local chain, this seqNo. */
  predicate Accepts(local: string, i: Instance, v: PhaseVote) {
    i.prePrepared ==> Fits(local, i.target, v)
  }

  predicate Fits(local: string, t: Target, v: PhaseVote) {
    && (v.chain == t.fromChain || v.chain == t.toChain)
    && (v.chain == local ==> v.seqNo == t.seqNo)
    && v.digest == t.digest
  }

  /** The tickets counted for the side `chain`: on the local chain the digest and the seqNo must match. */
  predicate Matches(local: string, t: Target, chain: string, v: PhaseVote) {
    v.chain == chain && (chain == local ==> v.digest == t.digest && v.seqNo == t.seqNo)
  }

  ghost function Backers(votes: Ballot, v: PhaseVote): set<string> {
    Supporters(votes, PhaseKey, PhaseKey(v))
  }

  /** A ticket for the side `chain`, cast by at least as many distinct voters as the quorum it states. */
  ghost predicate QuorumTicket(local: string, t: Target, votes: Ballot, chain: string, v: PhaseVote) {
    && Cast(votes, v) && Matches(local, t, chain, v)
    && MIN_QUORUM <= v.quorum <= |Backers(votes, v)|
  }

  ghost predicate SideQuorum(local: string, t: Target, votes: Ballot, chain: string) {
    exists v :: QuorumTicket(local, t, votes, chain, v)
  }

  /** A quorum on the from-chain and, for a cross-chain instance, another one on the to-chain. */
  ghost predicate HasQuorums(local: string, t: Target, votes: Ballot) {
    SideQuorum(local, t, votes, t.fromChain) && (t.fromChain != t.toChain ==> SideQuorum(local, t, votes, t.toChain))
  }

  // ---------------------------------------------------------------- what each handler may do

  /** handlePrePrepare up to sending the prepare vote; `accepted` is the outcome of the batch and transaction checks.
      The chains and the seqNo are set even when the checks fail. */
  function OnPrePrepare(local: string, i: Instance, seqNo: uint64, b: RequestBatch, accepted: bool): Instance {
    if i.prePrepared then i
    else
      var t := Target(FromOf(local, b), ToOf(local, b), seqNo, i.target.digest);
      if accepted then i.(target := t.(digest := DigestOf(b)), batch := Some(b), prePrepared := true)
      else i.(target := t)
  }

  function WithPrepareVote(local: string, i: Instance, v: PhaseVote): Instance {
    if Accepts(local, i, v) then i.(prepareVotes := Recorded(i.prepareVotes, v.replicaID, v)) else i
  }

  function WithCommitVote(local: string, i: Instance, v: PhaseVote): Instance {
    if Accepts(local, i, v) then i.(commitVotes := Recorded(i.commitVotes, v.replicaID, v)) else i
  }

  /** handlePrepare: the vote is recorded, and the phase may pass when the quorums are there. */
  ghost predicate PrepareStep(local: string, i: Instance, v: PhaseVote, i': Instance) {
    && i' == WithPrepareVote(local, i, v).(prepared := i'.prepared)
    && (i.prepared ==> i'.prepared)
    && (i'.prepared && !i.prepared ==> i.prePrepared && Accepts(local, i, v) && HasQuorums(local, i'.target, i'.prepareVotes))
  }

  ghost predicate CommitStep(local: string, i: Instance, v: PhaseVote, i': Instance) {
    && i' == WithCommitVote(local, i, v).(committed := i'.committed)
    && (i.committed ==> i'.committed)
    && (i'.committed && !i.committed ==> i.prepared && Accepts(local, i, v) && HasQuorums(local, i'.target, i'.commitVotes))
  }

  /** handleRequestBatch overwrites the seqNo and the chains, whatever the phase. */
  function OnRequestBatch(local: string, i: Instance, seqNo: uint64, b: RequestBatch): Instance {
    i.(target := Target(FromOf(local, b), ToOf(local, b), seqNo, i.target.digest))
  }

  // ---------------------------------------------------------------- phase certificates

  function TargetOf(local: string, seqNo: uint64, b: RequestBatch): Target {
    Target(FromOf(local, b), ToOf(local, b), seqNo, DigestOf(b))
  }

  /** Phases pass in order, and each passed phase is backed by its quorums for this seqNo and digest. */
  ghost predicate Certified(local: string, i: Instance) {
    && (i.committed ==> i.prepared) && (i.prepared ==> i.prePrepared)
    && (i.prePrepared ==> && i.batch.Some?
                          && i.target == TargetOf(local, i.target.seqNo, i.batch.value))
    && (i.prepared ==> HasQuorums(local, i.target, i.prepareVotes))
    && (i.committed ==> HasQuorums(local, i.target, i.commitVotes))
  }

  lemma SideQuorumGrows(local: string, t: Target, votes: Ballot, v: PhaseVote, chain: string)
    requires SideQuorum(local, t, votes, chain)
    ensures SideQuorum(local, t, Recorded(votes, v.replicaID, v), chain)
  {
    var u :| QuorumTicket(local, t, votes, chain, u);
    var votes' := Recorded(votes, v.replicaID, v);
    assert Backers(votes, u) <= Backers(votes', u);
    SubsetSize(Backers(votes, u), Backers(votes', u));
    var w :| w in votes && votes[w] == u;
    assert votes'[w] == u;
    assert QuorumTicket(local, t, votes', chain, u);
  }

  /** Recording a vote never undoes a quorum. */
  lemma QuorumsGrow(local: string, t: Target, votes: Ballot, v: PhaseVote)
    requires HasQuorums(local, t, votes)
    ensures HasQuorums(local, t, Recorded(votes, v.replicaID, v))
  {
    SideQuorumGrows(local, t, votes, v, t.fromChain);
    if t.fromChain != t.toChain { SideQuorumGrows(local, t, votes, v, t.toChain); }
  }

  lemma PrepareKeepsCertified(local: string, i: Instance, v: PhaseVote, i': Instance)
    requires Certified(local, i) && PrepareStep(local, i, v, i')
    ensures Certified(local, i')
  {
    if i.prepared { QuorumsGrow(local, i.target, i.prepareVotes, v); }
  }

  lemma CommitKeepsCertified(local: string, i: Instance, v: PhaseVote, i': Instance)
    requires Certified(local, i) && CommitStep(local, i, v, i')
    ensures Certified(local, i')
  {
    if i.committed { QuorumsGrow(local, i.target, i.commitVotes, v); }
  }

  lemma PrePrepareKeepsCertified(local: string, i: Instance, seqNo: uint64, b: RequestBatch, accepted: bool)
    requires Certified(local, i)
    ensures Certified(local, OnPrePrepare(local, i, seqNo, b, accepted))
  {
  }

  /** What handleRequestBatch destroys: the instance holds a batch of other chains, or it is prepared under another seqNo
      and its early votes hold no quorums for the new one. */
  ghost predicate Breaks(local: string, i: Instance, seqNo: uint64, b: RequestBatch) {
    && i.prePrepared
    && (|| FromOf(local, b) != i.target.fromChain || ToOf(local, b) != i.target.toChain
        || (i.prepared && seqNo != i.target.seqNo && !QuorumsAt(local, i, seqNo)))
  }

  /** The ballots of the passed phases hold quorums for the number `seqNo` too. */
  ghost predicate QuorumsAt(local: string, i: Instance, seqNo: uint64) {
    && HasQuorums(local, i.target.(seqNo := seqNo), i.prepareVotes)
    && (i.committed ==> HasQuorums(local, i.target.(seqNo := seqNo), i.commitVotes))
  }

  /** handleRequestBatch keeps the certificates exactly when it does not break them. */
  lemma RequestBatchKeepsCertified(local: string, i: Instance, seqNo: uint64, b: RequestBatch)
    requires Certified(local, i)
    ensures var i' := OnPrePrepare(local, OnRequestBatch(local, i, seqNo, b), seqNo, b, true);
            Certified(local, i') <==> !Breaks(local, i, seqNo, b)
  {
    if i.prePrepared {
      var i' := OnRequestBatch(local, i, seqNo, b);
      if i'.target.fromChain == i.target.fromChain && i'.target.toChain == i.target.toChain {
        assert i'.target == i.target.(seqNo := seqNo);
      }
    }
  }

  /** No vote of this chain in the ballots of the instance carries another seqNo than the instance. */
  ghost predicate OneNumber(local: string, i: Instance) {
    && (forall w | w in i.prepareVotes && i.prepareVotes[w].chain == local :: i.prepareVotes[w].seqNo == i.target.seqNo)
    && (forall w | w in i.commitVotes && i.commitVotes[w].chain == local :: i.commitVotes[w].seqNo == i.target.seqNo)
  }

  /** Without early votes for other numbers, submitting the batch of an instance again destroys its certificates exactly
      when the instance is prepared and gets another number. */
  lemma RenumberedExact(local: string, i: Instance, seqNo: uint64)
    requires Certified(local, i) && OneNumber(local, i) && i.prePrepared
    requires i.target.fromChain == local || i.target.toChain == local
    ensures var i' := OnRequestBatch(local, i, seqNo, i.batch.value);
            Certified(local, i') <==> !i.prepared || seqNo == i.target.seqNo
  {
    RequestBatchKeepsCertified(local, i, seqNo, i.batch.value);
    if i.prepared && seqNo != i.target.seqNo {
      NoOtherQuorum(local, i.target, i.prepareVotes, seqNo);
    }
  }

  lemma NoOtherQuorum(local: string, t: Target, votes: Ballot, seqNo: uint64)
    requires forall w | w in votes && votes[w].chain == local :: votes[w].seqNo == t.seqNo
    requires (t.fromChain == local || t.toChain == local) && seqNo != t.seqNo
    ensures !HasQuorums(local, t.(seqNo := seqNo), votes)
  {
    assert !SideQuorum(local, t.(seqNo := seqNo), votes, local);
  }

  /** A block-closing batch prepared at 1 by three votes loses its certificate when it is submitted again. */
  lemma RenumberingBreaks() returns (i: Instance, b: RequestBatch)
    ensures Certified("c", i) && i.prepared && i.batch == Some(b) && i.target.seqNo == 1
    ensures !Certified("c", OnRequestBatch("c", i, 2, b))
  {
    b := RequestBatch(0, [], EMPTY_BLOCK, 0, 1);
    var v := PhaseVote(b.Key(), "p", "c", "", 1, DigestOf(b), 3);
    var votes := map["p" := v.(replicaID := "p"), "q" := v.(replicaID := "q"), "r" := v.(replicaID := "r")];
    i := Instance(true, true, false, Some(b), TargetOf("c", 1, b), votes, map[]);
    assert Backers(votes, v) == {"p", "q", "r"};
    assert Backers(votes, votes["p"]) == Backers(votes, v);
    assert QuorumTicket("c", i.target, votes, "c", votes["p"]);
    RenumberedExact("c", i, 2);
  }

  /** All tickets state the same quorum. */
  ghost predicate UniformQuorum(votes: Ballot, q: uint64) {
    forall w | w in votes :: votes[w].quorum == q
  }

  /** `voters` all cast a vote of `votes` for this seqNo and digest on `chain`. */
  ghost predicate CastBy(local: string, t: Target, votes: Ballot, chain: string, voters: set<string>) {
    forall w | w in voters :: w in votes && Matches(local, t, chain, votes[w])
  }

  /** On one chain a committed instance has Q distinct preparers and Q distinct committers of this seqNo and batch. */
  lemma CommitCertificate(local: string, i: Instance, q: uint64) returns (preparers: set<string>, committers: set<string>)
    requires Certified(local, i) && i.committed && i.target.fromChain == i.target.toChain == local
    requires UniformQuorum(i.prepareVotes, q) && UniformQuorum(i.commitVotes, q)
    ensures |preparers| >= q >= 3 && CastBy(local, i.target, i.prepareVotes, local, preparers)
    ensures |committers| >= q && CastBy(local, i.target, i.commitVotes, local, committers)
  {
    var p :| QuorumTicket(local, i.target, i.prepareVotes, local, p);
    var c :| QuorumTicket(local, i.target, i.commitVotes, local, c);
    preparers, committers := Backers(i.prepareVotes, p), Backers(i.commitVotes, c);
    BackersMatch(local, i.target, i.prepareVotes, local, p);
    BackersMatch(local, i.target, i.commitVotes, local, c);
  }

  lemma BackersMatch(local: string, t: Target, votes: Ballot, chain: string, v: PhaseVote)
    requires Matches(local, t, chain, v)
    ensures CastBy(local, t, votes, chain, Backers(votes, v))
  {
    forall w | w in Backers(votes, v) ensures Matches(local, t, chain, votes[w]) {
      assert PhaseKey(votes[w]) == PhaseKey(v);
      assert votes[w].chain == PhaseKey(v).chain && votes[w].digest == PhaseKey(v).digest
             && votes[w].seqNo == PhaseKey(v).seqNo;
    }
  }

  /** A cross-chain instance that committed has in each phase, for each of its chains, a ticket cast by as many voters as
      the quorum it states, and the voters of the two chains are disjoint. */
  lemma CrossChainCertificate(local: string, i: Instance, votes: Ballot)
      returns (p: PhaseVote, a: set<string>, u: PhaseVote, b: set<string>)
    requires Certified(local, i) && i.committed && i.target.fromChain != i.target.toChain
    requires votes == i.prepareVotes || votes == i.commitVotes
    ensures a !! b && Cast(votes, p) && Cast(votes, u)
    ensures |a| >= p.quorum >= 3 && |b| >= u.quorum >= 3
    ensures CastBy(local, i.target, votes, i.target.fromChain, a) && CastBy(local, i.target, votes, i.target.toChain, b)
    ensures (forall w | w in a :: PhaseKey(votes[w]) == PhaseKey(p)) && forall w | w in b :: PhaseKey(votes[w]) == PhaseKey(u)
  {
    p :| QuorumTicket(local, i.target, votes, i.target.fromChain, p);
    u :| QuorumTicket(local, i.target, votes, i.target.toChain, u);
    a, b := Backers(votes, p), Backers(votes, u);
    BackersMatch(local, i.target, votes, i.target.fromChain, p);
    BackersMatch(local, i.target, votes, i.target.toChain, u);
    assert PhaseKey(p).chain != PhaseKey(u).chain;
    DisjointSupporters(votes, PhaseKey, PhaseKey(p), PhaseKey(u));
  }

  /** handlePrepare passes the phase as soon as the quorums are there, when all tickets state one quorum. */
  ghost predicate PreparePrompt(local: string, i: Instance, v: PhaseVote, i': Instance) {
    Accepts(local, i, v) && i.prePrepared && !i.prepared ==>
      forall q | UniformQuorum(i'.prepareVotes, q) :: i'.prepared <==> HasQuorums(local, i'.target, i'.prepareVotes)
  }

  ghost predicate CommitPrompt(local: string, i: Instance, v: PhaseVote, i': Instance) {
    Accepts(local, i, v) && i.prepared && !i.committed ==>
      forall q | UniformQuorum(i'.commitVotes, q) :: i'.committed <==> HasQuorums(local, i'.target, i'.commitVotes)
  }

  // ---------------------------------------------------------------- the code

  datatype Broadcast =
    | BroadcastPrePrepare(pp: PrePrepare)
    | BroadcastPrepare(v: PhaseVote)
    | BroadcastCommit(v: PhaseVote)
    | Announce(c: Committed)

  class LbftCore {
    const name: Name
    const id: string
    const chain: string
    const quorum: uint64
    const prepareVote: Vote<PhaseVote, PhaseVote>
    const commitVote: Vote<PhaseVote, PhaseVote>
    var isPassPrePrepare: bool
    var isPassPrepare: bool
    var isPassCommit: bool
    var requestBatch: Option<RequestBatch>
    var fromChain: string
    var toChain: string
    var seqNo: uint64
    var digest: Digest

    ghost predicate Valid()
      reads this, prepareVote, commitVote
    {
      && prepareVote != commitVote
      && prepareVote.Valid() && commitVote.Valid()
      && prepareVote.key == PhaseKey && commitVote.key == PhaseKey
      && (isPassCommit ==> isPassPrepare) && (isPassPrepare ==> isPassPrePrepare)
      && (isPassPrePrepare ==> requestBatch.Some?)
    }

    ghost function View(): Instance
      reads this, prepareVote, commitVote
    {
      Instance(isPassPrePrepare, isPassPrepare, isPassCommit, requestBatch, Aim(),
               prepareVote.tickets, commitVote.tickets)
    }

    function Aim(): Target
      reads this
    {
      Target(fromChain, toChain, seqNo, digest)
    }

    constructor (name: Name, id: string, chain: string, quorum: uint64)
      ensures Valid() && View() == FRESH
      ensures fresh(prepareVote) && fresh(commitVote)
      ensures this.name == name && this.id == id && this.chain == chain && this.quorum == quorum
    {
      this.name, this.id, this.chain, this.quorum := name, id, chain, quorum;
      prepareVote := new Vote(PhaseKey);
      commitVote := new Vote(PhaseKey);
      isPassPrePrepare, isPassPrepare, isPassCommit := false, false, false;
      requestBatch, fromChain, toChain, seqNo, digest := None, "", "", 0, NoDigest;
    }

    /** IterTicket with the running maximum of maybePreparePass and maybeCommitPass:
        the ticket of the side `side` with the most voters, and the quorum it states. */
    method BestTicket(vote: Vote<PhaseVote, PhaseVote>, side: string) returns (max: nat, quorum: uint64)
      requires Valid() && (vote == prepareVote || vote == commitVote)
      ensures max > 0 ==> exists v :: Cast(vote.tickets, v) && Matches(chain, Aim(), side, v)
                                      && v.quorum == quorum && |Backers(vote.tickets, v)| == max
      ensures forall v | Cast(vote.tickets, v) && Matches(chain, Aim(), side, v) :: |Backers(vote.tickets, v)| <= max
    {
      max, quorum := 0, 0;
      ghost var best: Option<PhaseVote> := None;
      var left := vote.statistics.Keys;
      while left != {}
        invariant left <= vote.statistics.Keys
        invariant best == None ==> max == 0
        invariant best.Some? ==> Cast(vote.tickets, best.value) && Matches(chain, Aim(), side, best.value)
                                 && best.value.quorum == quorum && |Backers(vote.tickets, best.value)| == max
        invariant forall k | k in vote.statistics && k !in left && Matches(chain, Aim(), side, vote.hashes[k]) ::
                    vote.statistics[k] <= max
        decreases left
      {
        var k :| k in left;
        assert KeyCounted(vote.tickets, vote.hashes, vote.statistics, vote.key, k);
        var ticket, num := vote.hashes[k], vote.statistics[k];
        if ticket.chain == side && (side == chain ==> ticket.digest == digest && ticket.seqNo == seqNo) && num > max {
          max, quorum := num, ticket.quorum;
          best := Some(ticket);
        }
        left := left - {k};
      }
      forall v | Cast(vote.tickets, v) && Matches(chain, Aim(), side, v)
        ensures |Backers(vote.tickets, v)| <= max
      {
        var k := PhaseKey(v);
        var w :| w in vote.tickets && vote.tickets[w] == v;
        assert VoterCounted(vote.tickets, vote.statistics, vote.key, w);
        assert KeyCounted(vote.tickets, vote.hashes, vote.statistics, vote.key, k);
        assert Matches(chain, Aim(), side, vote.hashes[k]) by {
          assert vote.hashes[k].chain == k.chain && vote.hashes[k].digest == k.digest && vote.hashes[k].seqNo == k.seqNo;
        }
      }
    }

    /** The common test of maybePreparePass and maybeCommitPass. It only passes with the quorums in place,
        and when all tickets state the same quorum it passes exactly then, whatever the order of the map. */
    method QuorumsReached(vote: Vote<PhaseVote, PhaseVote>) returns (ok: bool)
      requires Valid() && (vote == prepareVote || vote == commitVote)
      ensures ok ==> HasQuorums(chain, Aim(), vote.tickets)
      ensures forall q | UniformQuorum(vote.tickets, q) :: ok <==> HasQuorums(chain, Aim(), vote.tickets)
    {
      ok := SideReached(vote, fromChain);
      if ok && fromChain != toChain {
        ok := SideReached(vote, toChain);
      }
    }

    method SideReached(vote: Vote<PhaseVote, PhaseVote>, side: string) returns (ok: bool)
      requires Valid() && (vote == prepareVote || vote == commitVote)
      ensures ok ==> SideQuorum(chain, Aim(), vote.tickets, side)
      ensures forall q | UniformQuorum(vote.tickets, q) :: ok <==> SideQuorum(chain, Aim(), vote.tickets, side)
    {
      var max, quorum := BestTicket(vote, side);
      ok := !(max == 0 || quorum < MIN_QUORUM || max < quorum);
      if ok {
        ghost var v :| Cast(vote.tickets, v) && Matches(chain, Aim(), side, v)
                 && v.quorum == quorum && |Backers(vote.tickets, v)| == max;
        assert QuorumTicket(chain, Aim(), vote.tickets, side, v);
      }
      forall q | UniformQuorum(vote.tickets, q) && SideQuorum(chain, Aim(), vote.tickets, side) ensures ok {
        var v :| QuorumTicket(chain, Aim(), vote.tickets, side, v);
      }
    }

    /** The checks at the top of handlePrepare and handleCommit. */
    predicate Admits(v: PhaseVote)
      reads this
    {
      isPassPrePrepare ==> Fits(chain, Aim(), v)
    }

    /** maybeCommitPass. */
    method MaybeCommitPass() returns (ok: bool)
      requires Valid() && !isPassCommit
      modifies this`isPassCommit
      ensures Valid() && View() == old(View()).(committed := ok)
      ensures ok ==> isPassPrepare && HasQuorums(chain, Aim(), commitVote.tickets)
      ensures isPassPrepare ==> forall q | UniformQuorum(commitVote.tickets, q) ::
                ok <==> HasQuorums(chain, Aim(), commitVote.tickets)
    {
      ok := false;
      if isPassPrepare {
        ok := QuorumsReached(commitVote);
        isPassCommit := ok;
      }
    }

    /** maybePreparePass. */
    method MaybePreparePass() returns (ok: bool)
      requires Valid() && !isPassPrepare
      modifies this`isPassPrepare
      ensures Valid() && View() == old(View()).(prepared := ok)
      ensures ok ==> isPassPrePrepare && HasQuorums(chain, Aim(), prepareVote.tickets)
      ensures isPassPrePrepare ==> forall q | UniformQuorum(prepareVote.tickets, q) ::
                ok <==> HasQuorums(chain, Aim(), prepareVote.tickets)
    {
      ok := false;
      if isPassPrePrepare {
        ok := QuorumsReached(prepareVote);
        isPassPrepare := ok;
      }
    }

    method RecordCommit(commit: PhaseVote)
      requires Valid() && Admits(commit)
      modifies commitVote
      ensures Valid() && View() == WithCommitVote(chain, old(View()), commit)
    {
      commitVote.Add(commit.replicaID, commit);
    }

    method RecordPrepare(prepare: PhaseVote)
      requires Valid() && Admits(prepare)
      modifies prepareVote
      ensures Valid() && View() == WithPrepareVote(chain, old(View()), prepare)
    {
      prepareVote.Add(prepare.replicaID, prepare);
    }

    /** What is announced between two states of the instance. */
    function Announced(before: Instance, after: Instance): seq<Broadcast> {
      if after.committed && !before.committed && after.batch.Some?
      then [Announce(Committed(name, "", chain, id, after.target.seqNo, after.batch.value))] else []
    }

    /** A commit vote is recorded, and the batch is announced at most once, when the commit quorums are reached. */
    method HandleCommit(commit: PhaseVote) returns (sent: seq<Broadcast>)
      requires Valid()
      modifies `isPassCommit, commitVote
      ensures Valid() && CommitStep(chain, old(View()), commit, View()) && CommitPrompt(chain, old(View()), commit, View())
      ensures sent == Announced(old(View()), View())
      ensures sent == if isPassCommit && !old(isPassCommit) then [Announce(Committed(name, "", chain, id, seqNo, requestBatch.value))] else []
      ensures var fits := && (commit.chain == fromChain || commit.chain == toChain)
                          && (commit.chain == chain ==> commit.seqNo == seqNo) && commit.digest == digest;
              commitVote.tickets == if isPassPrePrepare && !fits then old(commitVote.tickets)
                                    else Recorded(old(commitVote.tickets), commit.replicaID, commit)
    {
      sent := [];
      if !Admits(commit) {
        return;
      }
      RecordCommit(commit);
      if !isPassCommit {
        var ok := MaybeCommitPass();
        if ok {
          sent := [Announce(Committed(name, "", chain, id, seqNo, requestBatch.value))];
        }
      }
    }

    /** A prepare vote is recorded; when the prepare quorums are reached this replica casts its commit vote. */
    method HandlePrepare(prepare: PhaseVote, primaryID: string) returns (ghost mid: Instance, sent: seq<Broadcast>)
      requires Valid()
      modifies `isPassPrepare, `isPassCommit, prepareVote, commitVote
      ensures Valid() && PrepareStep(chain, old(View()), prepare, mid) && PreparePrompt(chain, old(View()), prepare, mid)
      ensures mid.prepared && !old(isPassPrepare) ==>
                var own := PhaseVote(name, primaryID, chain, id, seqNo, digest, quorum);
                && CommitStep(chain, mid, own, View()) && CommitPrompt(chain, mid, own, View())
                && sent == Announced(mid, View()) + [BroadcastCommit(own)]
      ensures !mid.prepared || old(isPassPrepare) ==> View() == mid && sent == []
      ensures var fits := && (prepare.chain == fromChain || prepare.chain == toChain)
                          && (prepare.chain == chain ==> prepare.seqNo == seqNo) && prepare.digest == digest;
              prepareVote.tickets == if isPassPrePrepare && !fits then old(prepareVote.tickets)
                                     else Recorded(old(prepareVote.tickets), prepare.replicaID, prepare)
    {
      mid, sent := View(), [];
      if !Admits(prepare) {
        return;
      }
      RecordPrepare(prepare);
      mid := View();
      if !isPassPrepare {
        var ok := MaybePreparePass();
        mid := View();
        if ok {
          var commit := PhaseVote(name, primaryID, chain, id, seqNo, digest, quorum);
          sent := HandleCommit(commit);
          sent := sent + [BroadcastCommit(commit)];
        }
      }
    }

    /** The outcome of the batch and transaction checks; the primary does not check its own batches. */
    predicate Legal(pp: PrePrepare, primaryID: string, verified: bool) {
      id == primaryID || (ValidBatch(chain, pp.requests, FromOf(chain, pp.requests) == chain) && verified)
    }

    /** The instance carries this number and the chains of the batch: its first request names them, a batch of index 0 stays
        on its chain, and one that closes a block is always local. */
    predicate Addressed(number: uint64, b: RequestBatch)
      reads this
    {
      && seqNo == number
      && if b.id == EMPTY_BLOCK then fromChain == chain && toChain == chain
         else if b.requests == [] then fromChain == "" && toChain == ""
         else fromChain == b.requests[0].fromChain && toChain == if b.index == 0 then fromChain else b.requests[0].toChain
    }

    /** The first part of handlePrePrepare: the batch is adopted once, when it is legal; the chains and the seqNo are set
        before the checks. */
    method Adopt(pp: PrePrepare, primaryID: string, verified: bool) returns (adopted: bool)
      requires Valid()
      modifies this
      ensures Valid() && View() == OnPrePrepare(chain, old(View()), pp.seqNo, pp.requests, Legal(pp, primaryID, verified))
      ensures adopted <==> !old(isPassPrePrepare) && Legal(pp, primaryID, verified)
    {
      adopted := false;
      if isPassPrePrepare {
        return;
      }
      fromChain, toChain, seqNo := FromOf(chain, pp.requests), ToOf(chain, pp.requests), pp.seqNo;
      if id != primaryID && !(ValidBatch(chain, pp.requests, fromChain == chain) && verified) {
        return;
      }
      requestBatch, digest, isPassPrePrepare := Some(pp.requests), DigestOf(pp.requests), true;
      adopted := true;
    }

    /** What follows the first part of handlePrePrepare: a batch that is adopted makes this replica cast its prepare vote,
        and its commit vote when that completes the prepare quorums. */
    ghost predicate Followed(adopted: bool, pp: PrePrepare, primaryID: string, mid: Instance, mid': Instance,
                             after: Instance, sent: seq<Broadcast>) {
      if !adopted then after == mid && sent == []
      else
        var own := PhaseVote(name, primaryID, chain, id, pp.seqNo, DigestOf(pp.requests), quorum);
        && PrepareStep(chain, mid, own, mid') && PreparePrompt(chain, mid, own, mid')
        && if mid'.prepared then
             && CommitStep(chain, mid', own, after) && CommitPrompt(chain, mid', own, after)
             && sent == Announced(mid', after) + [BroadcastCommit(own), BroadcastPrepare(own)]
           else after == mid' && sent == [BroadcastPrepare(own)]
    }

    /** A batch that is adopted makes this replica cast its prepare vote, and its commit vote when that completes the
        prepare quorums. A backup adopts exactly the verified batches that close a block, come from this chain or go to it;
        the primary adopts its own unseen. */
    method HandlePrePrepare(pp: PrePrepare, primaryID: string, verified: bool)
      returns (ghost mid: Instance, ghost mid': Instance, sent: seq<Broadcast>)
      requires Valid()
      modifies this, prepareVote, commitVote
      ensures Valid()
      ensures mid == OnPrePrepare(chain, old(View()), pp.seqNo, pp.requests, Legal(pp, primaryID, verified))
      ensures Followed(!old(isPassPrePrepare) && Legal(pp, primaryID, verified), pp, primaryID, mid, mid', View(), sent)
      ensures var b := pp.requests;
              isPassPrePrepare <==>
                || old(isPassPrePrepare) || id == primaryID
                || (verified && b.requests == [] && (b.id == EMPTY_BLOCK || chain == ""))
                || (verified && b.requests != []
                    && (b.requests[0].fromChain == chain
                        || (b.id != EMPTY_BLOCK && b.index != 0 && b.requests[0].toChain == chain)))
      ensures var own := PhaseVote(name, primaryID, chain, id, pp.seqNo, DigestOf(pp.requests), quorum);
              BroadcastPrepare(own) in sent <==> isPassPrePrepare && !old(isPassPrePrepare)
      ensures !old(isPassPrePrepare) ==> Addressed(pp.seqNo, pp.requests)
      ensures if isPassPrePrepare && !old(isPassPrePrepare) then requestBatch == Some(pp.requests) && digest == DigestOf(pp.requests)
              else requestBatch == old(requestBatch) && digest == old(digest)
    {
      var adopted := Adopt(pp, primaryID, verified);
      mid, mid', sent := View(), View(), [];
      if adopted {
        var prepare := PhaseVote(name, primaryID, chain, id, seqNo, digest, quorum);
        mid', sent := HandlePrepare(prepare, primaryID);
        sent := sent + [BroadcastPrepare(prepare)];
      }
    }

    /** The first lines of handleRequestBatch: the number and the chains are overwritten whatever the phase. */
    method Renumber(number: uint64, b: RequestBatch)
      requires Valid()
      modifies `seqNo, `fromChain, `toChain
      ensures Valid() && View() == OnRequestBatch(chain, old(View()), number, b) && Addressed(number, b)
    {
      seqNo := number;
      if b.id == EMPTY_BLOCK {
        fromChain, toChain := chain, chain;
      } else {
        fromChain, toChain := b.FromChain(), b.ToChain();
      }
    }

    /** The primary numbers a batch, handles the pre-prepare itself and sends it out, even when the instance was already
        pre-prepared. */
    method HandleRequestBatch(number: uint64, b: RequestBatch)
      returns (ghost mid: Instance, ghost mid': Instance, sent: seq<Broadcast>)
      requires Valid()
      modifies this, prepareVote, commitVote
      ensures Valid()
      ensures mid == OnPrePrepare(chain, OnRequestBatch(chain, old(View()), number, b), number, b, true)
      ensures var pp := PrePrepare(name, id, chain, id, number, b);
              && sent != [] && sent[|sent| - 1] == BroadcastPrePrepare(pp)
              && Followed(!old(isPassPrePrepare), pp, id, mid, mid', View(), sent[..|sent| - 1])
      ensures isPassPrePrepare && Addressed(number, b)
    {
      Renumber(number, b);
      var pp := PrePrepare(name, id, chain, id, number, b);
      mid, mid', sent := HandlePrePrepare(pp, id, true);
      ghost var before := sent;
      sent := sent + [BroadcastPrePrepare(pp)];
      assert sent[..|sent| - 1] == before;
    }
  }
}
