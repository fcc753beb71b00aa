/** The replicas of one chain as a step system: each step is one handler of core/consensus/lbft, run by one replica
    on one message of the growing set of sent messages. Time-outs and view changes are steps without a cause. */
module Protocol {
  import opened Words
  import opened Messages
  import opened Votes
  import opened Phases
  import D = Delivery
  import A = Announcements

  /** `faulty` replicas may also send any message under their own name. Replicas of other chains only send messages
      of their own chain. */
  datatype Config = Config(replicas: set<string>, n: nat, q: uint64, K: uint64, chain: string, faulty: set<string>) {
    ghost predicate Valid() {
      |replicas| <= n && faulty <= replicas && "" !in replicas
    }
  }

  datatype Msg =
    | MsgPrePrepare(pp: PrePrepare)
    | MsgPrepare(v: PhaseVote)
    | MsgCommit(v: PhaseVote)
    | MsgCommitted(c: Committed)
  {
    function Sender(): string {
      match this
      case MsgPrePrepare(pp) => pp.replicaID
      case MsgPrepare(v) => v.replicaID
      case MsgCommit(v) => v.replicaID
      case MsgCommitted(c) => c.replicaID
    }

    function Chain(): string {
      match this
      case MsgPrePrepare(pp) => pp.chain
      case MsgPrepare(v) => v.chain
      case MsgCommit(v) => v.chain
      case MsgCommitted(c) => c.chain
    }
  }

  type Tally = A.Tally

  /** `pending` are the announcements of instances that passed commit; `queue` is lbftCoreCommittedChan. */
  datatype Replica = Replica(primary: string, seqNo: uint64, lastSeqNo: uint64, instances: map<Name, Instance>,
                             pending: set<Committed>, tallies: map<Name, Tally>, queue: seq<Committed>,
                             log: D.State<RequestBatch>, stopped: bool)

  datatype System = System(replicas: map<string, Replica>, sent: set<Msg>)

  datatype Step =
    | Propose(b: RequestBatch)
    | RecvPrePrepare(pp: PrePrepare, verified: bool)
    | RecvPrepare(v: PhaseVote)
    | RecvCommit(v: PhaseVote)
    | AnnounceCommitted(c: Committed)
    | RecvCommitted(c: Committed)
    | StoreCommitted
    | AnswerFetch(s: uint64)
    | Retire(name: Name)
    | ViewChange
    | Misbehave(m: Msg)

  function InstanceOf(r: Replica, name: Name): Instance {
    if name in r.instances then r.instances[name] else FRESH
  }

  function TallyOf(r: Replica, name: Name): Tally {
    if name in r.tallies then r.tallies[name] else map[]
  }

  function OwnVote(cfg: Config, id: string, r: Replica, name: Name, t: Target): PhaseVote {
    PhaseVote(name, r.primary, cfg.chain, id, t.seqNo, t.digest, cfg.q)
  }

  /** The announcement an instance that passed commit makes under the number `s`. */
  function AnnouncementOf(cfg: Config, id: string, name: Name, i: Instance, s: uint64): set<Committed> {
    if i.committed && i.batch.Some? then {Committed(name, "", cfg.chain, id, s, i.batch.value)} else {}
  }

  /** handleRequestBatch: the primary gives the batch the next number and sends the pre-prepare out. An instance that
      already exists is renumbered whatever its phase, and an announcement it has not made yet then carries the new
      number; it is pre-prepared, and the own prepare vote sent, only once. */
  ghost predicate ProposeStep(cfg: Config, id: string, r: Replica, b: RequestBatch, r': Replica, out: set<Msg>) {
    var name, s := b.Key(), Add64(r.seqNo, 1);
    var i := InstanceOf(r, name);
    var i' := OnPrePrepare(cfg.chain, OnRequestBatch(cfg.chain, i, s, b), s, b, true);
    && r.primary == id
    && r' == r.(seqNo := s, instances := r.instances[name := i'], pending := r.pending + AnnouncementOf(cfg, id, name, i, s))
    && out == {MsgPrePrepare(PrePrepare(name, id, cfg.chain, id, s, b))}
              + if i.prePrepared then {} else {MsgPrepare(OwnVote(cfg, id, r, name, i'.target))}
  }

  ghost predicate RecvPrePrepareStep(cfg: Config, id: string, r: Replica, pp: PrePrepare, verified: bool,
                                     r': Replica, out: set<Msg>) {
    && r.primary != "" && pp.chain == cfg.chain && pp.replicaID == pp.primaryID == r.primary && pp.seqNo > r.lastSeqNo
    && var i := InstanceOf(r, pp.name);
       var accepted := id == r.primary
         || (ValidBatch(cfg.chain, pp.requests, FromOf(cfg.chain, pp.requests) == cfg.chain) && verified);
       var i' := OnPrePrepare(cfg.chain, i, pp.seqNo, pp.requests, accepted);
       && r' == r.(instances := r.instances[pp.name := i'])
       && if i'.prePrepared && !i.prePrepared
          then out == {MsgPrepare(OwnVote(cfg, id, r, pp.name, i'.target))}
          else out == {}
  }

  /** The guards are those of handleConsensusMsg; a replica records its own vote without them. */
  ghost predicate RecvPrepareStep(cfg: Config, id: string, r: Replica, v: PhaseVote, r': Replica, out: set<Msg>) {
    && (v.replicaID == id || (r.primary != "" && (v.chain == cfg.chain ==> v.primaryID == r.primary && v.seqNo > r.lastSeqNo)))
    && v.name in r'.instances
    && var i, i' := InstanceOf(r, v.name), r'.instances[v.name];
       && r' == r.(instances := r.instances[v.name := i'])
       && PrepareStep(cfg.chain, i, v, i')
       && if i'.prepared && !i.prepared
          then out == {MsgCommit(OwnVote(cfg, id, r, v.name, i'.target))}
          else out == {}
  }

  ghost predicate RecvCommitStep(cfg: Config, id: string, r: Replica, v: PhaseVote, r': Replica) {
    && v.name in r'.instances
    && var i, i' := InstanceOf(r, v.name), r'.instances[v.name];
       && CommitStep(cfg.chain, i, v, i')
       && r' == r.(instances := r.instances[v.name := i'],
                   pending := r.pending + if i.committed then {} else AnnouncementOf(cfg, id, v.name, i', i'.target.seqNo))
  }

  /** recvCommitted behind the guards of handleConsensusMsg. */
  ghost predicate RecvCommittedStep(cfg: Config, r: Replica, c: Committed, r': Replica) {
    && c.chain == cfg.chain && c.seqNo > r.log.exec
    && if c.seqNo in r.log.store then
         && r' == r.(tallies := r'.tallies)
         && c.name !in r'.tallies
         && forall n | n in r'.tallies :: n in r.tallies && r'.tallies[n] == r.tallies[n]
       else
         var t := Recorded(TallyOf(r, c.name), c.replicaID, c);
         if |Supporters(t, CommittedKey, CommittedKey(c))| >= cfg.q
         then r' == r.(tallies := r.tallies - {c.name}, queue := r.queue + [c])
         else r' == r.(tallies := r.tallies[c.name := t])
  }

  ghost predicate StoreStep(cfg: Config, r: Replica, r': Replica) {
    && r.queue != []
    && var c := r.queue[0];
       r' == r.(queue := r.queue[1..], log := D.Add(cfg.K, r.log, c.seqNo, c.batch),
                instances := r.instances - {c.batch.Key()},
                lastSeqNo := if c.seqNo in r.log.store then r.lastSeqNo else D.Raised(r.lastSeqNo, c.seqNo),
                stopped := D.Panics(cfg.K, r.log, c.seqNo, c.batch))
  }

  /** Any change of primary and of the counters, with instances dropped or kept. */
  ghost predicate ViewChangeStep(r: Replica, r': Replica) {
    && r' == r.(primary := r'.primary, seqNo := r'.seqNo, lastSeqNo := r'.lastSeqNo, instances := r'.instances)
    && forall n | n in r'.instances :: n in r.instances && r'.instances[n] == r.instances[n]
  }

  ghost predicate ReplicaStep(cfg: Config, id: string, sent: set<Msg>, r: Replica, step: Step, r': Replica, out: set<Msg>) {
    !r.stopped &&
    match step
    case Propose(b) => ProposeStep(cfg, id, r, b, r', out)
    case RecvPrePrepare(pp, verified) =>
      MsgPrePrepare(pp) in sent && RecvPrePrepareStep(cfg, id, r, pp, verified, r', out)
    case RecvPrepare(v) => MsgPrepare(v) in sent && RecvPrepareStep(cfg, id, r, v, r', out)
    case RecvCommit(v) => MsgCommit(v) in sent && RecvCommitStep(cfg, id, r, v, r') && out == {}
    case AnnounceCommitted(c) => c in r.pending && r' == r && out == {MsgCommitted(c)}
    case RecvCommitted(c) => MsgCommitted(c) in sent && RecvCommittedStep(cfg, r, c, r') && out == {}
    case StoreCommitted => StoreStep(cfg, r, r') && out == {}
    case AnswerFetch(s) =>
      && s in r.log.store && r' == r
      && var b := r.log.store[s];
         out == {MsgCommitted(Committed(b.Key(), "", cfg.chain, id, s, b))}
    case Retire(name) => r' == r.(instances := r.instances - {name}) && out == {}
    case ViewChange => ViewChangeStep(r, r') && out == {}
    case Misbehave(m) =>
      && r' == r && out == {m}
      && if m.Sender() == id then id in cfg.faulty else m.Sender() !in cfg.replicas && m.Chain() != cfg.chain
  }

  ghost predicate Next(cfg: Config, s: System, id: string, step: Step, s': System) {
    && id in s.replicas && id in s'.replicas
    && s'.replicas == s.replicas[id := s'.replicas[id]]
    && exists out :: s'.sent == s.sent + out && ReplicaStep(cfg, id, s.sent, s.replicas[id], step, s'.replicas[id], out)
  }

  ghost predicate Init(cfg: Config, s: System) {
    && s.replicas.Keys == cfg.replicas && s.sent == {}
    && forall id | id in s.replicas ::
         s.replicas[id] == Replica(s.replicas[id].primary, s.replicas[id].seqNo, s.replicas[id].lastSeqNo, map[], {}, map[], [],
                                   D.State(0, map[], []), false)
  }

  datatype Event = Event(id: string, step: Step)

  /** `run` is a run of the system under the events `es`. */
  ghost predicate IsRun(cfg: Config, run: seq<System>, es: seq<Event>) {
    && |run| == |es| + 1 && Init(cfg, run[0])
    && forall j | 0 <= j < |es| :: Next(cfg, run[j], es[j].id, es[j].step, run[j + 1])
  }

  ghost function Final(run: seq<System>): System
    requires run != []
  {
    run[|run| - 1]
  }

  lemma RunPrefix(cfg: Config, run: seq<System>, es: seq<Event>)
    requires IsRun(cfg, run, es) && es != []
    ensures var n := |es| - 1;
            && IsRun(cfg, run[..n + 1], es[..n]) && Final(run[..n + 1]) == run[n] && Final(run) == run[n + 1]
            && Next(cfg, run[n], es[n].id, es[n].step, run[n + 1])
  {
    var n := |es| - 1;
    forall j | 0 <= j < n ensures Next(cfg, run[..n + 1][j], es[..n][j].id, es[..n][j].step, run[..n + 1][j + 1]) {
      assert Next(cfg, run[j], es[j].id, es[j].step, run[j + 1]);
    }
  }

  // ---------------------------------------------------------------- what is announced

  ghost predicate Announced(cfg: Config, sent: set<Msg>, id: string, s: uint64, b: RequestBatch) {
    exists c :: MsgCommitted(c) in sent && c.replicaID == id && c.chain == cfg.chain && c.seqNo == s && c.batch == b
  }

  ghost function Announcers(cfg: Config, sent: set<Msg>, s: uint64, b: RequestBatch): set<string> {
    set id | id in cfg.replicas && Announced(cfg, sent, id, s, b)
  }

  /** At least Q replicas announced `b` at `s`. */
  ghost predicate Chosen(cfg: Config, sent: set<Msg>, s: uint64, b: RequestBatch) {
    |Announcers(cfg, sent, s, b)| >= cfg.q
  }

  ghost predicate Equivocates(cfg: Config, sent: set<Msg>, id: string) {
    exists s, b1, b2 :: b1 != b2 && Announced(cfg, sent, id, s, b1) && Announced(cfg, sent, id, s, b2)
  }

  ghost function Equivocators(cfg: Config, sent: set<Msg>): set<string> {
    set id | id in cfg.replicas && Equivocates(cfg, sent, id)
  }

  lemma ChosenGrows(cfg: Config, sent: set<Msg>, sent': set<Msg>, s: uint64, b: RequestBatch)
    requires sent <= sent' && Chosen(cfg, sent, s, b)
    ensures Chosen(cfg, sent', s, b)
  {
    forall id | id in Announcers(cfg, sent, s, b) ensures id in Announcers(cfg, sent', s, b) {
      var c :| MsgCommitted(c) in sent && c.replicaID == id && c.chain == cfg.chain && c.seqNo == s && c.batch == b;
      assert MsgCommitted(c) in sent';
    }
    SubsetSize(Announcers(cfg, sent, s, b), Announcers(cfg, sent', s, b));
  }

  /** Two different batches chosen at one seqNo need 2Q - N replicas that announced both. */
  lemma ChosenTwice(cfg: Config, sent: set<Msg>, s: uint64, b1: RequestBatch, b2: RequestBatch)
    requires cfg.Valid() && Chosen(cfg, sent, s, b1) && Chosen(cfg, sent, s, b2) && b1 != b2
    ensures |Equivocators(cfg, sent)| >= 2 * cfg.q - cfg.n
  {
    var x, y := Announcers(cfg, sent, s, b1), Announcers(cfg, sent, s, b2);
    QuorumIntersection(cfg.replicas, x, y, cfg.n, cfg.q);
    assert x * y <= Equivocators(cfg, sent);
    SubsetSize(x * y, Equivocators(cfg, sent));
  }

  // ---------------------------------------------------------------- every stored batch was chosen

  /** A recorded ticket was really sent, on this chain, by the replica it is recorded for. */
  ghost predicate Genuine(cfg: Config, sent: set<Msg>, t: Tally) {
    forall w | w in t :: t[w].replicaID == w && t[w].chain == cfg.chain && MsgCommitted(t[w]) in sent
  }

  ghost predicate LogChosen(cfg: Config, sent: set<Msg>, log: D.State<RequestBatch>) {
    && (forall k | k in log.store :: Chosen(cfg, sent, k, log.store[k]))
    && (forall e | e in log.out && e.batch.Some? :: Chosen(cfg, sent, e.seqNo, e.batch.value))
  }

  ghost predicate ReplicaBacked(cfg: Config, sent: set<Msg>, r: Replica) {
    && (forall n | n in r.tallies :: Genuine(cfg, sent, r.tallies[n]))
    && (forall c | c in r.queue :: Chosen(cfg, sent, c.seqNo, c.batch))
    && LogChosen(cfg, sent, r.log)
    && (forall c | c in r.pending :: c.chain == cfg.chain)
  }

  /** Messages of this chain come from its replicas; every replica's tallies are genuine and its queue, map and log
      hold only chosen batches. */
  ghost predicate Backed(cfg: Config, s: System) {
    && s.replicas.Keys == cfg.replicas
    && (forall m | m in s.sent && m.Chain() == cfg.chain :: m.Sender() in cfg.replicas)
    && (forall id | id in s.replicas :: ReplicaBacked(cfg, s.sent, s.replicas[id]))
    && (forall id, c | id in s.replicas && c in s.replicas[id].pending :: c.replicaID == id)
  }

  lemma BackedGrows(cfg: Config, sent: set<Msg>, sent': set<Msg>, r: Replica)
    requires sent <= sent' && ReplicaBacked(cfg, sent, r)
    ensures ReplicaBacked(cfg, sent', r)
  {
    forall n | n in r.tallies ensures Genuine(cfg, sent', r.tallies[n]) {
      assert Genuine(cfg, sent, r.tallies[n]);
    }
    forall c | c in r.queue ensures Chosen(cfg, sent', c.seqNo, c.batch) {
      ChosenGrows(cfg, sent, sent', c.seqNo, c.batch);
    }
    forall k | k in r.log.store ensures Chosen(cfg, sent', k, r.log.store[k]) {
      ChosenGrows(cfg, sent, sent', k, r.log.store[k]);
    }
    forall e | e in r.log.out && e.batch.Some? ensures Chosen(cfg, sent', e.seqNo, e.batch.value) {
      ChosenGrows(cfg, sent, sent', e.seqNo, e.batch.value);
    }
  }

  /** Supporters of a ticket in a genuine tally all announced its batch at its seqNo. */
  lemma SupportersAnnounced(cfg: Config, sent: set<Msg>, t: Tally, c: Committed)
    requires Genuine(cfg, sent, t) && c.chain == cfg.chain
    requires forall m | m in sent && m.Chain() == cfg.chain :: m.Sender() in cfg.replicas
    ensures Supporters(t, CommittedKey, CommittedKey(c)) <= Announcers(cfg, sent, c.seqNo, c.batch)
  {
    forall w | w in Supporters(t, CommittedKey, CommittedKey(c))
      ensures w in Announcers(cfg, sent, c.seqNo, c.batch)
    {
      var d := t[w];
      assert CommittedKey(d).seqNo == c.seqNo && CommittedKey(d).batch == c.batch;
      assert MsgCommitted(d) in sent && MsgCommitted(d).Chain() == cfg.chain && MsgCommitted(d).Sender() == w;
    }
  }

  lemma RecvCommittedBacked(cfg: Config, sent: set<Msg>, r: Replica, c: Committed, r': Replica)
    requires ReplicaBacked(cfg, sent, r) && MsgCommitted(c) in sent && RecvCommittedStep(cfg, r, c, r')
    requires forall m | m in sent && m.Chain() == cfg.chain :: m.Sender() in cfg.replicas
    ensures ReplicaBacked(cfg, sent, r')
  {
    if c.seqNo !in r.log.store {
      var t := Recorded(TallyOf(r, c.name), c.replicaID, c);
      assert Genuine(cfg, sent, t);
      if |Supporters(t, CommittedKey, CommittedKey(c))| >= cfg.q {
        SupportersAnnounced(cfg, sent, t, c);
        SubsetSize(Supporters(t, CommittedKey, CommittedKey(c)), Announcers(cfg, sent, c.seqNo, c.batch));
      }
    }
  }

  lemma StoreBacked(cfg: Config, sent: set<Msg>, r: Replica, r': Replica)
    requires ReplicaBacked(cfg, sent, r) && StoreStep(cfg, r, r')
    ensures ReplicaBacked(cfg, sent, r')
  {
    var c := r.queue[0];
    assert c in r.queue && forall d | d in r'.queue :: d in r.queue;
    if c.seqNo !in r.log.store {
      D.AddFromStore(cfg.K, r.log, c.seqNo, c.batch);
      LogStaysChosen(cfg, sent, r.log, c.seqNo, c.batch, r'.log);
    }
  }

  lemma LogStaysChosen(cfg: Config, sent: set<Msg>, log: D.State<RequestBatch>, s: uint64, b: RequestBatch,
                       log': D.State<RequestBatch>)
    requires LogChosen(cfg, sent, log) && Chosen(cfg, sent, s, b)
    requires D.FromStore(D.Stored(log, s, b), log')
    ensures LogChosen(cfg, sent, log')
  {
    var m := log.store[s := b];
    assert forall k | k in m :: Chosen(cfg, sent, k, m[k]);
  }

  /** A step that keeps tallies, queue and log and adds only announcements of its own chain. */
  lemma RestBacked(cfg: Config, sent: set<Msg>, r: Replica, r': Replica)
    requires ReplicaBacked(cfg, sent, r) && r'.tallies == r.tallies && r'.queue == r.queue && r'.log == r.log
    requires forall c | c in r'.pending :: c in r.pending || c.chain == cfg.chain
    ensures ReplicaBacked(cfg, sent, r')
  {
  }

  lemma StepBacked(cfg: Config, id: string, sent: set<Msg>, r: Replica, step: Step, r': Replica, out: set<Msg>)
    requires cfg.Valid() && id in cfg.replicas && ReplicaBacked(cfg, sent, r)
    requires ReplicaStep(cfg, id, sent, r, step, r', out)
    requires forall m | m in sent && m.Chain() == cfg.chain :: m.Sender() in cfg.replicas
    ensures ReplicaBacked(cfg, sent, r')
  {
    match step
    case RecvCommitted(c) => RecvCommittedBacked(cfg, sent, r, c, r');
    case StoreCommitted => StoreBacked(cfg, sent, r, r');
    case _ => RestBacked(cfg, sent, r, r');
  }

  /** A replica announces under its own name, and messages of this chain come from its replicas. */
  lemma StepSenders(cfg: Config, id: string, sent: set<Msg>, r: Replica, step: Step, r': Replica, out: set<Msg>)
    requires cfg.Valid() && id in cfg.replicas && ReplicaStep(cfg, id, sent, r, step, r', out)
    requires forall c | c in r.pending :: c.replicaID == id
    ensures forall m | m in out && m.Chain() == cfg.chain :: m.Sender() in cfg.replicas
    ensures forall c | c in r'.pending :: c.replicaID == id
  {
  }

  lemma NextBacked(cfg: Config, s: System, id: string, step: Step, s': System)
    requires cfg.Valid() && Backed(cfg, s) && Next(cfg, s, id, step, s')
    ensures Backed(cfg, s')
  {
    var out :| s'.sent == s.sent + out && ReplicaStep(cfg, id, s.sent, s.replicas[id], step, s'.replicas[id], out);
    StepBacked(cfg, id, s.sent, s.replicas[id], step, s'.replicas[id], out);
    StepSenders(cfg, id, s.sent, s.replicas[id], step, s'.replicas[id], out);
    BackedUpdate(cfg, s, id, s'.replicas[id], out, s');
  }

  lemma BackedUpdate(cfg: Config, s: System, id: string, r': Replica, out: set<Msg>, s': System)
    requires Backed(cfg, s) && id in s.replicas
    requires s'.replicas == s.replicas[id := r'] && s'.sent == s.sent + out
    requires ReplicaBacked(cfg, s.sent, r') && forall c | c in r'.pending :: c.replicaID == id
    requires forall m | m in out && m.Chain() == cfg.chain :: m.Sender() in cfg.replicas
    ensures Backed(cfg, s')
  {
    forall j | j in s'.replicas ensures ReplicaBacked(cfg, s'.sent, s'.replicas[j]) {
      BackedGrows(cfg, s.sent, s'.sent, s'.replicas[j]);
    }
  }

  lemma {:induction false} RunBacked(cfg: Config, run: seq<System>, es: seq<Event>)
    requires cfg.Valid() && IsRun(cfg, run, es)
    ensures Backed(cfg, Final(run))
    decreases |es|
  {
    if es != [] {
      var n := |es| - 1;
      RunPrefix(cfg, run, es);
      RunBacked(cfg, run[..n + 1], es[..n]);
      NextBacked(cfg, run[n], es[n].id, es[n].step, run[n + 1]);
    }
  }

  /** Log agreement over all runs and all views: while fewer than 2Q - N replicas have announced two different batches
      at one seqNo, any two replicas delivered the same batch at every seqNo both delivered. */
  lemma LogAgreement(cfg: Config, run: seq<System>, es: seq<Event>, a: string, b: string,
                     x: D.Entry<RequestBatch>, y: D.Entry<RequestBatch>)
    requires cfg.Valid() && IsRun(cfg, run, es)
    requires |Equivocators(cfg, Final(run).sent)| < 2 * cfg.q - cfg.n
    requires a in cfg.replicas && b in cfg.replicas
    requires a in Final(run).replicas && b in Final(run).replicas
    requires x in Final(run).replicas[a].log.out && y in Final(run).replicas[b].log.out
    requires x.seqNo == y.seqNo && x.batch.Some? && y.batch.Some?
    ensures x.batch == y.batch
  {
    RunBacked(cfg, run, es);
    var s := Final(run);
    assert ReplicaBacked(cfg, s.sent, s.replicas[a]) && ReplicaBacked(cfg, s.sent, s.replicas[b]);
    if x.batch != y.batch {
      ChosenTwice(cfg, s.sent, x.seqNo, x.batch.value, y.batch.value);
    }
  }

  // ---------------------------------------------------------------- one view with a correct primary

  ghost predicate Proposed(sent: set<Msg>, p: string, s: uint64, b: RequestBatch) {
    exists pp :: MsgPrePrepare(pp) in sent && pp.replicaID == p && pp.seqNo == s && pp.requests == b
  }

  /** The primary names its proposals after their batches, numbers them upwards and gives no number to two batches. */
  ghost predicate ProposalsOrdered(sent: set<Msg>, p: string, last: uint64) {
    && (forall pp | MsgPrePrepare(pp) in sent && pp.replicaID == p :: pp.seqNo <= last && pp.name.digest == pp.requests)
    && (forall pp, qq | MsgPrePrepare(pp) in sent && pp.replicaID == p && MsgPrePrepare(qq) in sent && qq.replicaID == p
                        && pp.seqNo == qq.seqNo :: pp.requests == qq.requests)
  }

  ghost predicate LogProposed(sent: set<Msg>, p: string, log: D.State<RequestBatch>) {
    && (forall k | k in log.store :: Proposed(sent, p, k, log.store[k]))
    && (forall e | e in log.out && e.batch.Some? :: Proposed(sent, p, e.seqNo, e.batch.value))
  }

  /** A pre-prepared instance holds the batch it is named after, proposed under its number. */
  ghost predicate InstanceProposed(sent: set<Msg>, p: string, n: Name, i: Instance) {
    && (i.committed ==> i.prepared) && (i.prepared ==> i.prePrepared)
    && (i.prePrepared ==> i.batch == Some(n.digest) && Proposed(sent, p, i.target.seqNo, n.digest))
  }

  ghost predicate ReplicaFaithful(sent: set<Msg>, p: string, r: Replica) {
    && r.primary == p
    && (forall n | n in r.instances :: InstanceProposed(sent, p, n, r.instances[n]))
    && (forall c | c in r.pending :: Proposed(sent, p, c.seqNo, c.batch))
    && (forall c | c in r.queue :: Proposed(sent, p, c.seqNo, c.batch))
    && LogProposed(sent, p, r.log)
  }

  /** Announcements of correct replicas are proposals of the primary. */
  ghost predicate HonestAnnouncements(cfg: Config, sent: set<Msg>, p: string) {
    forall c | MsgCommitted(c) in sent && c.chain == cfg.chain && c.replicaID !in cfg.faulty ::
      Proposed(sent, p, c.seqNo, c.batch)
  }

  ghost predicate Faithful(cfg: Config, s: System, p: string) {
    && p in s.replicas && p !in cfg.faulty
    && ProposalsOrdered(s.sent, p, s.replicas[p].seqNo)
    && HonestAnnouncements(cfg, s.sent, p)
    && forall id | id in s.replicas :: ReplicaFaithful(s.sent, p, s.replicas[id])
  }

  lemma ProposedGrows(sent: set<Msg>, sent': set<Msg>, p: string, s: uint64, b: RequestBatch)
    requires sent <= sent' && Proposed(sent, p, s, b)
    ensures Proposed(sent', p, s, b)
  {
    var pp :| MsgPrePrepare(pp) in sent && pp.replicaID == p && pp.seqNo == s && pp.requests == b;
    assert MsgPrePrepare(pp) in sent';
  }

  lemma FaithfulGrows(sent: set<Msg>, sent': set<Msg>, p: string, r: Replica)
    requires sent <= sent' && ReplicaFaithful(sent, p, r)
    ensures ReplicaFaithful(sent', p, r)
  {
    forall s, b | Proposed(sent, p, s, b) ensures Proposed(sent', p, s, b) {
      ProposedGrows(sent, sent', p, s, b);
    }
    forall n | n in r.instances ensures InstanceProposed(sent', p, n, r.instances[n]) {
      assert InstanceProposed(sent, p, n, r.instances[n]);
    }
  }

  /** With fewer than Q faulty replicas, a chosen batch was announced by a correct one, so it was proposed. */
  lemma ChosenIsProposed(cfg: Config, sent: set<Msg>, p: string, s: uint64, b: RequestBatch)
    requires |cfg.faulty| < cfg.q && HonestAnnouncements(cfg, sent, p) && Chosen(cfg, sent, s, b)
    ensures Proposed(sent, p, s, b)
  {
    var xs := Announcers(cfg, sent, s, b);
    if xs <= cfg.faulty { SubsetSize(xs, cfg.faulty); }
    var id :| id in xs && id !in cfg.faulty;
    var c :| MsgCommitted(c) in sent && c.replicaID == id && c.chain == cfg.chain && c.seqNo == s && c.batch == b;
  }

  lemma ProposeFaithful(cfg: Config, sent: set<Msg>, p: string, r: Replica, b: RequestBatch, r': Replica, out: set<Msg>)
    requires ReplicaFaithful(sent, p, r) && ProposeStep(cfg, p, r, b, r', out)
    requires ProposalsOrdered(sent, p, r.seqNo) && r.seqNo + 1 < TWO_64
    ensures ReplicaFaithful(sent + out, p, r') && ProposalsOrdered(sent + out, p, r'.seqNo)
  {
    var name, s := b.Key(), r.seqNo + 1;
    var pp := PrePrepare(name, p, cfg.chain, p, s, b);
    assert MsgPrePrepare(pp) in sent + out;
    FaithfulGrows(sent, sent + out, p, r);
    assert Proposed(sent + out, p, s, b);
    assert InstanceProposed(sent + out, p, name, InstanceOf(r, name));
    assert InstanceProposed(sent + out, p, name, r'.instances[name]);
    assert forall qq | MsgPrePrepare(qq) in sent + out :: MsgPrePrepare(qq) in sent || qq == pp;
  }

  /** The handlers that change one instance. */
  lemma InstanceStepsFaithful(cfg: Config, id: string, sent: set<Msg>, p: string, r: Replica, step: Step,
                              r': Replica, out: set<Msg>)
    requires ReplicaFaithful(sent, p, r) && ReplicaStep(cfg, id, sent, r, step, r', out)
    requires forall pp | MsgPrePrepare(pp) in sent && pp.replicaID == p :: pp.name.digest == pp.requests
    requires step.RecvPrePrepare? || step.RecvPrepare? || step.RecvCommit?
    ensures ReplicaFaithful(sent, p, r')
  {
    match step
    case RecvPrePrepare(pp, verified) =>
      assert InstanceProposed(sent, p, pp.name, InstanceOf(r, pp.name));
      assert Proposed(sent, p, pp.seqNo, pp.requests);
    case RecvPrepare(v) =>
      assert InstanceProposed(sent, p, v.name, InstanceOf(r, v.name));
    case RecvCommit(v) =>
      assert InstanceProposed(sent, p, v.name, InstanceOf(r, v.name));
  }

  lemma StoreFaithful(cfg: Config, sent: set<Msg>, p: string, r: Replica, r': Replica)
    requires ReplicaFaithful(sent, p, r) && StoreStep(cfg, r, r')
    ensures ReplicaFaithful(sent, p, r')
  {
    var c := r.queue[0];
    assert c in r.queue && forall d | d in r'.queue :: d in r.queue;
    if c.seqNo !in r.log.store {
      D.AddFromStore(cfg.K, r.log, c.seqNo, c.batch);
      LogStaysProposed(sent, p, r.log, c.seqNo, c.batch, r'.log);
    }
  }

  lemma LogStaysProposed(sent: set<Msg>, p: string, log: D.State<RequestBatch>, s: uint64, b: RequestBatch,
                         log': D.State<RequestBatch>)
    requires LogProposed(sent, p, log) && Proposed(sent, p, s, b)
    requires D.FromStore(D.Stored(log, s, b), log')
    ensures LogProposed(sent, p, log')
  {
    var m := log.store[s := b];
    assert forall k | k in m :: Proposed(sent, p, k, m[k]);
  }

  lemma StepFaithful(cfg: Config, id: string, sent: set<Msg>, p: string, r: Replica, step: Step,
                     r': Replica, out: set<Msg>)
    requires |cfg.faulty| < cfg.q && HonestAnnouncements(cfg, sent, p)
    requires ReplicaFaithful(sent, p, r) && ReplicaStep(cfg, id, sent, r, step, r', out)
    requires forall pp | MsgPrePrepare(pp) in sent && pp.replicaID == p :: pp.name.digest == pp.requests
    requires !step.ViewChange? && !step.Propose? && ReplicaBacked(cfg, sent, r')
    ensures ReplicaFaithful(sent, p, r') && r'.seqNo == r.seqNo
  {
    match step
    case RecvPrePrepare(_, _) => InstanceStepsFaithful(cfg, id, sent, p, r, step, r', out);
    case RecvPrepare(_) => InstanceStepsFaithful(cfg, id, sent, p, r, step, r', out);
    case RecvCommit(_) => InstanceStepsFaithful(cfg, id, sent, p, r, step, r', out);
    case RecvCommitted(c) =>
      forall d | d in r'.queue ensures Proposed(sent, p, d.seqNo, d.batch) {
        ChosenIsProposed(cfg, sent, p, d.seqNo, d.batch);
      }
    case StoreCommitted => StoreFaithful(cfg, sent, p, r, r');
    case _ =>
  }

  /** What a step sends: only the primary proposes, and correct replicas announce only proposals. */
  lemma OutFaithful(cfg: Config, id: string, sent: set<Msg>, p: string, r: Replica, step: Step,
                    r': Replica, out: set<Msg>)
    requires p in cfg.replicas - cfg.faulty && id in cfg.replicas
    requires ReplicaFaithful(sent, p, r) && ReplicaStep(cfg, id, sent, r, step, r', out)
    requires forall c | c in r.pending :: c.replicaID == id && c.chain == cfg.chain
    ensures !step.Propose? ==> forall pp | MsgPrePrepare(pp) in out :: pp.replicaID != p
    ensures forall c | MsgCommitted(c) in out && c.chain == cfg.chain && c.replicaID !in cfg.faulty ::
              Proposed(sent, p, c.seqNo, c.batch)
  {
  }

  lemma NextFaithful(cfg: Config, s: System, p: string, id: string, step: Step, s': System)
    requires cfg.Valid() && |cfg.faulty| < cfg.q && !step.ViewChange?
    requires Backed(cfg, s) && Faithful(cfg, s, p) && Next(cfg, s, id, step, s')
    requires step.Propose? ==> s.replicas[id].seqNo + 1 < TWO_64
    ensures Faithful(cfg, s', p)
  {
    var out :| s'.sent == s.sent + out && ReplicaStep(cfg, id, s.sent, s.replicas[id], step, s'.replicas[id], out);
    StepBacked(cfg, id, s.sent, s.replicas[id], step, s'.replicas[id], out);
    OutFaithful(cfg, id, s.sent, p, s.replicas[id], step, s'.replicas[id], out);
    ReplicaStaysFaithful(cfg, s, p, id, step, s'.replicas[id], out);
    FaithfulUpdate(cfg, s, p, id, s'.replicas[id], out, s');
  }

  lemma ReplicaStaysFaithful(cfg: Config, s: System, p: string, id: string, step: Step, r': Replica, out: set<Msg>)
    requires |cfg.faulty| < cfg.q && !step.ViewChange? && id in s.replicas && Faithful(cfg, s, p)
    requires step.Propose? ==> s.replicas[id].seqNo + 1 < TWO_64
    requires ReplicaStep(cfg, id, s.sent, s.replicas[id], step, r', out) && ReplicaBacked(cfg, s.sent, r')
    requires !step.Propose? ==> forall pp | MsgPrePrepare(pp) in out :: pp.replicaID != p
    ensures ReplicaFaithful(s.sent + out, p, r')
    ensures ProposalsOrdered(s.sent + out, p, s.replicas[id := r'][p].seqNo)
  {
    var r := s.replicas[id];
    assert ReplicaFaithful(s.sent, p, r);
    if step.Propose? {
      assert ProposeStep(cfg, id, r, step.b, r', out) && id == p;
      ProposeFaithful(cfg, s.sent, p, r, step.b, r', out);
    } else {
      StepFaithful(cfg, id, s.sent, p, r, step, r', out);
      FaithfulGrows(s.sent, s.sent + out, p, r');
      SilentOrdered(s.sent, p, s.replicas[p].seqNo, out);
    }
  }

  lemma SilentOrdered(sent: set<Msg>, p: string, last: uint64, out: set<Msg>)
    requires ProposalsOrdered(sent, p, last) && forall pp | MsgPrePrepare(pp) in out :: pp.replicaID != p
    ensures ProposalsOrdered(sent + out, p, last)
  {
    assert forall pp | MsgPrePrepare(pp) in sent + out && pp.replicaID == p :: MsgPrePrepare(pp) in sent;
  }

  lemma FaithfulUpdate(cfg: Config, s: System, p: string, id: string, r': Replica, out: set<Msg>, s': System)
    requires Faithful(cfg, s, p) && id in s.replicas
    requires s'.replicas == s.replicas[id := r'] && s'.sent == s.sent + out
    requires ReplicaFaithful(s'.sent, p, r') && ProposalsOrdered(s'.sent, p, s'.replicas[p].seqNo)
    requires forall c | MsgCommitted(c) in out && c.chain == cfg.chain && c.replicaID !in cfg.faulty ::
               Proposed(s.sent, p, c.seqNo, c.batch)
    ensures Faithful(cfg, s', p)
  {
    forall j | j in s'.replicas ensures ReplicaFaithful(s'.sent, p, s'.replicas[j]) {
      if j != id { FaithfulGrows(s.sent, s'.sent, p, s.replicas[j]); }
    }
    forall c | MsgCommitted(c) in s'.sent && c.chain == cfg.chain && c.replicaID !in cfg.faulty
      ensures Proposed(s'.sent, p, c.seqNo, c.batch)
    {
      assert Proposed(s.sent, p, c.seqNo, c.batch);
      ProposedGrows(s.sent, s'.sent, p, c.seqNo, c.batch);
    }
  }

  /** Every replica starts in the view of `p`, from any numbers on; no view change happens and no number given wraps. */
  ghost predicate OneView(cfg: Config, run: seq<System>, es: seq<Event>, p: string) {
    && IsRun(cfg, run, es) && p in cfg.replicas
    && (forall id | id in run[0].replicas :: run[0].replicas[id].primary == p)
    && forall j | 0 <= j < |es| :: !es[j].step.ViewChange? && !Wraps(run[j], es[j])
  }

  /** A proposal under the number that follows 2^64 - 1. */
  ghost predicate Wraps(s: System, e: Event) {
    e.step.Propose? && e.id in s.replicas && s.replicas[e.id].seqNo + 1 == TWO_64
  }

  lemma OneViewPrefix(cfg: Config, run: seq<System>, es: seq<Event>, p: string)
    requires OneView(cfg, run, es, p) && es != []
    ensures OneView(cfg, run[..|es|], es[..|es| - 1], p) && Final(run[..|es|]) == run[|es| - 1]
    ensures Next(cfg, run[|es| - 1], es[|es| - 1].id, es[|es| - 1].step, run[|es|])
    ensures !es[|es| - 1].step.ViewChange? && !Wraps(run[|es| - 1], es[|es| - 1])
  {
  }

  lemma InitFaithful(cfg: Config, s: System, p: string)
    requires Init(cfg, s) && p in cfg.replicas - cfg.faulty
    requires forall id | id in s.replicas :: s.replicas[id].primary == p
    ensures Faithful(cfg, s, p)
  {
    forall id | id in s.replicas ensures ReplicaFaithful(s.sent, p, s.replicas[id]) {
      assert s.replicas[id].instances == map[] && s.replicas[id].log == D.State(0, map[], []);
    }
  }

  lemma {:induction false} RunFaithful(cfg: Config, run: seq<System>, es: seq<Event>, p: string)
    requires cfg.Valid() && |cfg.faulty| < cfg.q && p !in cfg.faulty && OneView(cfg, run, es, p)
    ensures Faithful(cfg, Final(run), p)
    decreases |es|
  {
    if es == [] {
      InitFaithful(cfg, run[0], p);
    } else {
      var n := |es| - 1;
      OneViewPrefix(cfg, run, es, p);
      RunFaithful(cfg, run[..n + 1], es[..n], p);
      RunBacked(cfg, run[..n + 1], es[..n]);
      NextFaithful(cfg, run[n], p, es[n].id, es[n].step, run[n + 1]);
    }
  }

  /** Validity and agreement in one view: with a correct primary and fewer than Q faulty replicas, every batch a replica
      hands on at seqNo s is the one batch the primary proposed at s. */
  lemma SingleViewValidity(cfg: Config, run: seq<System>, es: seq<Event>, p: string, id: string,
                           s: uint64, b: RequestBatch)
    requires cfg.Valid() && |cfg.faulty| < cfg.q && p !in cfg.faulty && OneView(cfg, run, es, p)
    requires id in Final(run).replicas
    requires var r := Final(run).replicas[id];
             (exists c :: c in r.queue && c.seqNo == s && c.batch == b) || D.Entry(s, Some(b)) in r.log.out
    ensures Proposed(Final(run).sent, p, s, b)
    ensures forall b' | Proposed(Final(run).sent, p, s, b') :: b' == b
  {
    RunFaithful(cfg, run, es, p);
    var r := Final(run).replicas[id];
    assert ReplicaFaithful(Final(run).sent, p, r);
    if D.Entry(s, Some(b)) in r.log.out {
      assert D.Entry(s, Some(b)).batch.Some?;
    }
  }

  /** In a view with a correct primary only faulty replicas announce two batches at one seqNo. */
  lemma HonestDoNotEquivocate(cfg: Config, run: seq<System>, es: seq<Event>, p: string)
    requires cfg.Valid() && |cfg.faulty| < cfg.q && p !in cfg.faulty && OneView(cfg, run, es, p)
    ensures Equivocators(cfg, Final(run).sent) <= cfg.faulty
  {
    RunFaithful(cfg, run, es, p);
    var sent := Final(run).sent;
    forall id | id in cfg.replicas && id !in cfg.faulty ensures !Equivocates(cfg, sent, id) {
      forall s, b | Announced(cfg, sent, id, s, b) ensures Proposed(sent, p, s, b) {
        var c :| MsgCommitted(c) in sent && c.replicaID == id && c.chain == cfg.chain && c.seqNo == s && c.batch == b;
      }
    }
  }

  /** The numbers above `start` up to `last` were proposed, and no others. */
  ghost predicate NumbersGiven(sent: set<Msg>, p: string, start: uint64, last: uint64) {
    && (forall pp | MsgPrePrepare(pp) in sent && pp.replicaID == p :: start < pp.seqNo <= last)
    && (forall s: uint64 | start < s <= last :: Given(sent, p, s))
  }

  ghost predicate Given(sent: set<Msg>, p: string, s: uint64) {
    exists b :: Proposed(sent, p, s, b)
  }

  lemma GivenGrows(sent: set<Msg>, sent': set<Msg>, p: string, start: uint64, last: uint64)
    requires sent <= sent' && NumbersGiven(sent, p, start, last)
    ensures forall s: uint64 | start < s <= last :: Given(sent', p, s)
  {
    forall s: uint64 | start < s <= last ensures Given(sent', p, s) {
      assert Given(sent, p, s);
      var b :| Proposed(sent, p, s, b);
      ProposedGrows(sent, sent', p, s, b);
    }
  }

  lemma NumbersStep(cfg: Config, s: System, p: string, start: uint64, id: string, step: Step, s': System)
    requires cfg.Valid() && p in cfg.replicas - cfg.faulty && p in s.replicas && Next(cfg, s, id, step, s')
    requires start <= s.replicas[p].seqNo && NumbersGiven(s.sent, p, start, s.replicas[p].seqNo)
    requires !step.ViewChange? && (step.Propose? ==> s.replicas[id].seqNo + 1 < TWO_64)
    ensures p in s'.replicas && start <= s'.replicas[p].seqNo && NumbersGiven(s'.sent, p, start, s'.replicas[p].seqNo)
  {
    var out :| s'.sent == s.sent + out && ReplicaStep(cfg, id, s.sent, s.replicas[id], step, s'.replicas[id], out);
    var last, last' := s.replicas[p].seqNo, s'.replicas[p].seqNo;
    GivenGrows(s.sent, s'.sent, p, start, last);
    if step.Propose? && id == p {
      var pp := PrePrepare(step.b.Key(), p, cfg.chain, p, last', step.b);
      assert MsgPrePrepare(pp) in s'.sent;
      assert Proposed(s'.sent, p, last', step.b) && Given(s'.sent, p, last');
    } else {
      assert forall pp | MsgPrePrepare(pp) in out :: pp.replicaID != p;
    }
  }

  /** A correct primary gives out the numbers behind the one its view began with, each of them and no other. */
  lemma {:induction false} ViewNumbers(cfg: Config, run: seq<System>, es: seq<Event>, p: string)
    requires cfg.Valid() && p !in cfg.faulty && OneView(cfg, run, es, p)
    ensures p in run[0].replicas && p in Final(run).replicas && run[0].replicas[p].seqNo <= Final(run).replicas[p].seqNo
    ensures NumbersGiven(Final(run).sent, p, run[0].replicas[p].seqNo, Final(run).replicas[p].seqNo)
    decreases |es|
  {
    if es != [] {
      OneViewPrefix(cfg, run, es, p);
      ViewNumbers(cfg, run[..|es|], es[..|es| - 1], p);
      assert run[..|es|][0] == run[0];
      NumbersStep(cfg, run[|es| - 1], p, run[0].replicas[p].seqNo, es[|es| - 1].id, es[|es| - 1].step, run[|es|]);
    }
  }

  /** What is handed on in a view has a number the primary gave out in it. */
  lemma DeliveredInView(cfg: Config, run: seq<System>, es: seq<Event>, p: string, id: string, e: D.Entry<RequestBatch>)
    requires cfg.Valid() && |cfg.faulty| < cfg.q && p !in cfg.faulty && OneView(cfg, run, es, p)
    requires id in Final(run).replicas && e in Final(run).replicas[id].log.out && e.batch.Some?
    ensures p in run[0].replicas && p in Final(run).replicas
    ensures run[0].replicas[p].seqNo < e.seqNo <= Final(run).replicas[p].seqNo
  {
    RunFaithful(cfg, run, es, p);
    ViewNumbers(cfg, run, es, p);
    assert ReplicaFaithful(Final(run).sent, p, Final(run).replicas[id]);
    assert Proposed(Final(run).sent, p, e.seqNo, e.batch.value);
  }

  // ---------------------------------------------------------------- commit certificates

  ghost predicate VotesSent(sent: set<Msg>, i: Instance) {
    && (forall w | w in i.prepareVotes :: i.prepareVotes[w].replicaID == w && MsgPrepare(i.prepareVotes[w]) in sent)
    && (forall w | w in i.commitVotes :: i.commitVotes[w].replicaID == w && MsgCommit(i.commitVotes[w]) in sent)
  }

  ghost predicate InstancesCertified(cfg: Config, r: Replica) {
    forall n | n in r.instances :: Certified(cfg.chain, r.instances[n])
  }

  /** A proposal that renumbers an instance against its votes. */
  ghost predicate StepBreaks(cfg: Config, r: Replica, step: Step) {
    step.Propose? && Breaks(cfg.chain, InstanceOf(r, step.b.Key()), Add64(r.seqNo, 1), step.b)
  }

  /** Exactly these proposals destroy certificates. */
  lemma StepCertified(cfg: Config, id: string, sent: set<Msg>, r: Replica, step: Step, r': Replica, out: set<Msg>)
    requires InstancesCertified(cfg, r) && ReplicaStep(cfg, id, sent, r, step, r', out)
    ensures InstancesCertified(cfg, r') <==> !StepBreaks(cfg, r, step)
  {
    match step
    case Propose(b) => ProposeCertified(cfg, id, r, b, r', out);
    case RecvPrePrepare(pp, verified) => assert Certified(cfg.chain, InstanceOf(r, pp.name));
    case RecvPrepare(v) =>
      assert Certified(cfg.chain, InstanceOf(r, v.name));
      PrepareKeepsCertified(cfg.chain, InstanceOf(r, v.name), v, r'.instances[v.name]);
    case RecvCommit(v) =>
      assert Certified(cfg.chain, InstanceOf(r, v.name));
      CommitKeepsCertified(cfg.chain, InstanceOf(r, v.name), v, r'.instances[v.name]);
    case _ =>
  }

  lemma ProposeCertified(cfg: Config, id: string, r: Replica, b: RequestBatch, r': Replica, out: set<Msg>)
    requires InstancesCertified(cfg, r) && ProposeStep(cfg, id, r, b, r', out)
    ensures InstancesCertified(cfg, r') <==> !StepBreaks(cfg, r, Propose(b))
  {
    var name := b.Key();
    assert Certified(cfg.chain, InstanceOf(r, name));
    RequestBatchKeepsCertified(cfg.chain, InstanceOf(r, name), Add64(r.seqNo, 1), b);
    assert InstancesCertified(cfg, r') <==> Certified(cfg.chain, r'.instances[name]);
  }

  /** No step of `id` in this run renumbers an instance against its votes. */
  ghost predicate NeverBreaks(cfg: Config, run: seq<System>, es: seq<Event>, id: string)
    requires |run| == |es| + 1
  {
    forall j | 0 <= j < |es| && es[j].id == id && id in run[j].replicas :: !StepBreaks(cfg, run[j].replicas[id], es[j].step)
  }

  ghost predicate AlwaysCertified(cfg: Config, run: seq<System>, id: string) {
    forall k | 0 <= k < |run| && id in run[k].replicas :: InstancesCertified(cfg, run[k].replicas[id])
  }

  lemma {:induction false} RunKeys(cfg: Config, run: seq<System>, es: seq<Event>, k: nat)
    requires IsRun(cfg, run, es) && k < |run|
    ensures run[k].replicas.Keys == cfg.replicas
  {
    if k > 0 {
      RunKeys(cfg, run, es, k - 1);
      assert Next(cfg, run[k - 1], es[k - 1].id, es[k - 1].step, run[k]);
    }
  }

  /** One state of the run after another. */
  lemma NextCertified(cfg: Config, run: seq<System>, es: seq<Event>, id: string, j: nat)
    requires IsRun(cfg, run, es) && j < |es| && id in cfg.replicas
    requires id in run[j].replicas && id in run[j + 1].replicas && InstancesCertified(cfg, run[j].replicas[id])
    ensures InstancesCertified(cfg, run[j + 1].replicas[id]) <==>
              !(es[j].id == id && StepBreaks(cfg, run[j].replicas[id], es[j].step))
  {
    var s, s', step := run[j], run[j + 1], es[j].step;
    assert Next(cfg, s, es[j].id, step, s');
    if es[j].id == id {
      var out :| s'.sent == s.sent + out && ReplicaStep(cfg, id, s.sent, s.replicas[id], step, s'.replicas[id], out);
      StepCertified(cfg, id, s.sent, s.replicas[id], step, s'.replicas[id], out);
    }
  }

  lemma {:induction false} CertifiedUpTo(cfg: Config, run: seq<System>, es: seq<Event>, id: string, k: nat)
    requires IsRun(cfg, run, es) && id in cfg.replicas && k < |run| && NeverBreaks(cfg, run, es, id)
    ensures id in run[k].replicas && InstancesCertified(cfg, run[k].replicas[id])
  {
    RunKeys(cfg, run, es, k);
    if k > 0 {
      CertifiedUpTo(cfg, run, es, id, k - 1);
      NextCertified(cfg, run, es, id, k - 1);
    }
  }

  /** Over every run the instances of a replica pass their phases in order, each on its quorums for the number and digest
      of the instance, if and only if the replica never renumbers an instance against its votes. */
  lemma RunCertified(cfg: Config, run: seq<System>, es: seq<Event>, id: string)
    requires IsRun(cfg, run, es) && id in cfg.replicas
    ensures AlwaysCertified(cfg, run, id) <==> NeverBreaks(cfg, run, es, id)
  {
    if NeverBreaks(cfg, run, es, id) {
      forall k | 0 <= k < |run| ensures id in run[k].replicas && InstancesCertified(cfg, run[k].replicas[id]) {
        CertifiedUpTo(cfg, run, es, id, k);
      }
    }
    if AlwaysCertified(cfg, run, id) {
      forall j | 0 <= j < |es| && es[j].id == id && id in run[j].replicas
        ensures !StepBreaks(cfg, run[j].replicas[id], es[j].step)
      {
        RunKeys(cfg, run, es, j + 1);
        NextCertified(cfg, run, es, id, j);
      }
    }
  }

  // ---------------------------------------------------------------- quorums behind every passed phase

  /** The votes hold quorums for the batch under some number. */
  ghost predicate QuorumsSomewhere(local: string, b: RequestBatch, votes: Ballot) {
    exists s: uint64 :: HasQuorums(local, TargetOf(local, s, b), votes)
  }

  /** Whatever was renumbered: an instance that holds the batch it is named after passed each phase on its quorums for
      this batch. */
  ghost predicate Supported(local: string, n: Name, i: Instance) {
    && (i.committed ==> i.prepared) && (i.prepared ==> i.prePrepared) && (i.prePrepared ==> i.batch.Some?)
    && (i.prePrepared && i.batch.value == n.digest ==>
          && i.target == TargetOf(local, i.target.seqNo, n.digest)
          && (i.prepared ==> QuorumsSomewhere(local, n.digest, i.prepareVotes))
          && (i.committed ==> QuorumsSomewhere(local, n.digest, i.commitVotes)))
  }

  ghost predicate InstancesSupported(cfg: Config, sent: set<Msg>, r: Replica) {
    forall n | n in r.instances :: Supported(cfg.chain, n, r.instances[n]) && VotesSent(sent, r.instances[n])
  }

  lemma SomewhereGrows(local: string, b: RequestBatch, votes: Ballot, v: PhaseVote)
    requires QuorumsSomewhere(local, b, votes)
    ensures QuorumsSomewhere(local, b, Recorded(votes, v.replicaID, v))
  {
    var s: uint64 :| HasQuorums(local, TargetOf(local, s, b), votes);
    QuorumsGrow(local, TargetOf(local, s, b), votes, v);
  }

  lemma PrepareSupported(local: string, n: Name, i: Instance, v: PhaseVote, i': Instance)
    requires Supported(local, n, i) && PrepareStep(local, i, v, i')
    ensures Supported(local, n, i')
  {
    if i.prePrepared && i.batch.value == n.digest && i.prepared { SomewhereGrows(local, n.digest, i.prepareVotes, v); }
    assert i'.target == i.target;
  }

  lemma CommitSupported(local: string, n: Name, i: Instance, v: PhaseVote, i': Instance)
    requires Supported(local, n, i) && CommitStep(local, i, v, i')
    ensures Supported(local, n, i')
  {
    if i.prePrepared && i.batch.value == n.digest && i.committed { SomewhereGrows(local, n.digest, i.commitVotes, v); }
    assert i'.target == i.target;
  }

  lemma ProposeSupported(local: string, i: Instance, s: uint64, b: RequestBatch)
    requires Supported(local, b.Key(), i)
    ensures Supported(local, b.Key(), OnPrePrepare(local, OnRequestBatch(local, i, s, b), s, b, true))
  {
  }

  /** A step that changes one instance. */
  lemma UpdateSupported(cfg: Config, sent: set<Msg>, r: Replica, n: Name, i: Instance, r': Replica)
    requires InstancesSupported(cfg, sent, r) && r'.instances == r.instances[n := i]
    requires Supported(cfg.chain, n, i) && VotesSent(sent, i)
    ensures InstancesSupported(cfg, sent, r')
  {
  }

  lemma InstanceSupported(cfg: Config, sent: set<Msg>, r: Replica, n: Name)
    requires InstancesSupported(cfg, sent, r)
    ensures Supported(cfg.chain, n, InstanceOf(r, n)) && VotesSent(sent, InstanceOf(r, n))
  {
  }

  lemma RecvPrePrepareSupported(cfg: Config, id: string, sent: set<Msg>, r: Replica, pp: PrePrepare, verified: bool, r': Replica, out: set<Msg>)
    requires InstancesSupported(cfg, sent, r) && RecvPrePrepareStep(cfg, id, r, pp, verified, r', out)
    ensures InstancesSupported(cfg, sent, r')
  {
    InstanceSupported(cfg, sent, r, pp.name);
    UpdateSupported(cfg, sent, r, pp.name, r'.instances[pp.name], r');
  }

  lemma RecvPrepareSupported(cfg: Config, id: string, sent: set<Msg>, r: Replica, v: PhaseVote, r': Replica, out: set<Msg>)
    requires InstancesSupported(cfg, sent, r) && MsgPrepare(v) in sent && RecvPrepareStep(cfg, id, r, v, r', out)
    ensures InstancesSupported(cfg, sent, r')
  {
    InstanceSupported(cfg, sent, r, v.name);
    PrepareSupported(cfg.chain, v.name, InstanceOf(r, v.name), v, r'.instances[v.name]);
    UpdateSupported(cfg, sent, r, v.name, r'.instances[v.name], r');
  }

  lemma RecvCommitSupported(cfg: Config, id: string, sent: set<Msg>, r: Replica, v: PhaseVote, r': Replica)
    requires InstancesSupported(cfg, sent, r) && MsgCommit(v) in sent && RecvCommitStep(cfg, id, r, v, r')
    ensures InstancesSupported(cfg, sent, r')
  {
    InstanceSupported(cfg, sent, r, v.name);
    CommitSupported(cfg.chain, v.name, InstanceOf(r, v.name), v, r'.instances[v.name]);
    UpdateSupported(cfg, sent, r, v.name, r'.instances[v.name], r');
  }

  lemma StepSupported(cfg: Config, id: string, sent: set<Msg>, r: Replica, step: Step, r': Replica, out: set<Msg>)
    requires InstancesSupported(cfg, sent, r) && ReplicaStep(cfg, id, sent, r, step, r', out)
    ensures InstancesSupported(cfg, sent, r')
  {
    match step
    case Propose(b) =>
      InstanceSupported(cfg, sent, r, b.Key());
      ProposeSupported(cfg.chain, InstanceOf(r, b.Key()), Add64(r.seqNo, 1), b);
      UpdateSupported(cfg, sent, r, b.Key(), r'.instances[b.Key()], r');
    case RecvPrePrepare(pp, verified) => RecvPrePrepareSupported(cfg, id, sent, r, pp, verified, r', out);
    case RecvPrepare(v) => RecvPrepareSupported(cfg, id, sent, r, v, r', out);
    case RecvCommit(v) => RecvCommitSupported(cfg, id, sent, r, v, r');
    case _ => FewerSupported(cfg, sent, r, r');
  }

  lemma FewerSupported(cfg: Config, sent: set<Msg>, r: Replica, r': Replica)
    requires InstancesSupported(cfg, sent, r)
    requires forall n | n in r'.instances :: n in r.instances && r'.instances[n] == r.instances[n]
    ensures InstancesSupported(cfg, sent, r')
  {
  }

  lemma {:induction false} RunSupported(cfg: Config, run: seq<System>, es: seq<Event>, id: string)
    requires IsRun(cfg, run, es) && id in Final(run).replicas
    ensures InstancesSupported(cfg, Final(run).sent, Final(run).replicas[id])
    decreases |es|
  {
    if es != [] {
      var n := |es| - 1;
      var s, s', j := run[n], run[n + 1], es[n].id;
      RunPrefix(cfg, run, es);
      RunSupported(cfg, run[..n + 1], es[..n], id);
      if j == id {
        var out :| s'.sent == s.sent + out && ReplicaStep(cfg, id, s.sent, s.replicas[id], es[n].step, s'.replicas[id], out);
        StepSupported(cfg, id, s.sent, s.replicas[id], es[n].step, s'.replicas[id], out);
      }
      SupportedGrows(cfg, s.sent, s'.sent, s'.replicas[id]);
    }
  }

  lemma SupportedGrows(cfg: Config, sent: set<Msg>, sent': set<Msg>, r: Replica)
    requires sent <= sent' && InstancesSupported(cfg, sent, r)
    ensures InstancesSupported(cfg, sent', r)
  {
  }

  ghost predicate SentPrepare(sent: set<Msg>, w: string, s: uint64, b: RequestBatch) {
    exists v :: MsgPrepare(v) in sent && v.replicaID == w && v.seqNo == s && v.digest == DigestOf(b)
  }

  ghost predicate SentCommit(sent: set<Msg>, w: string, s: uint64, b: RequestBatch) {
    exists v :: MsgCommit(v) in sent && v.replicaID == w && v.seqNo == s && v.digest == DigestOf(b)
  }

  lemma QuorumOf(local: string, s: uint64, b: RequestBatch, votes: Ballot, q: uint64) returns (voters: set<string>)
    requires HasQuorums(local, TargetOf(local, s, b), votes) && FromOf(local, b) == local && UniformQuorum(votes, q)
    ensures |voters| >= q
    ensures forall w | w in voters :: w in votes && votes[w].seqNo == s && votes[w].digest == DigestOf(b)
  {
    var t := TargetOf(local, s, b);
    var p :| QuorumTicket(local, t, votes, local, p);
    voters := Backers(votes, p);
    BackersMatch(local, t, votes, local, p);
    assert forall w | w in voters :: Matches(local, t, local, votes[w]);
  }

  /** In every reachable state, a committed instance of this chain that holds the batch it is named after stands on Q
      distinct replicas that sent a prepare vote, and Q that sent a commit vote, for this batch, under one number per
      phase: the number of the instance, unless it was renumbered against its votes. */
  lemma CommittedStandsOnQuorums(cfg: Config, run: seq<System>, es: seq<Event>, id: string, n: Name)
      returns (x: uint64, preparers: set<string>, y: uint64, committers: set<string>)
    requires IsRun(cfg, run, es) && id in Final(run).replicas && n in Final(run).replicas[id].instances
    requires var i := Final(run).replicas[id].instances[n];
             && i.committed && i.batch == Some(n.digest) && i.target.fromChain == cfg.chain
             && UniformQuorum(i.prepareVotes, cfg.q) && UniformQuorum(i.commitVotes, cfg.q)
    ensures |preparers| >= cfg.q && |committers| >= cfg.q
    ensures var sent := Final(run).sent;
            && (forall w | w in preparers :: SentPrepare(sent, w, x, n.digest))
            && (forall w | w in committers :: SentCommit(sent, w, y, n.digest))
    ensures id in cfg.replicas && NeverBreaks(cfg, run, es, id) ==> x == y == Final(run).replicas[id].instances[n].target.seqNo
  {
    RunSupported(cfg, run, es, id);
    var i, sent := Final(run).replicas[id].instances[n], Final(run).sent;
    assert Supported(cfg.chain, n, i) && VotesSent(sent, i);
    if id in cfg.replicas && NeverBreaks(cfg, run, es, id) {
      CertifiedUpTo(cfg, run, es, id, |es|);
      assert Certified(cfg.chain, i);
      x, y := i.target.seqNo, i.target.seqNo;
    } else {
      x :| HasQuorums(cfg.chain, TargetOf(cfg.chain, x, n.digest), i.prepareVotes);
      y :| HasQuorums(cfg.chain, TargetOf(cfg.chain, y, n.digest), i.commitVotes);
    }
    preparers := QuorumOf(cfg.chain, x, n.digest, i.prepareVotes, cfg.q);
    committers := QuorumOf(cfg.chain, y, n.digest, i.commitVotes, cfg.q);
    forall w | w in preparers ensures SentPrepare(sent, w, x, n.digest) { assert MsgPrepare(i.prepareVotes[w]) in sent; }
    forall w | w in committers ensures SentCommit(sent, w, y, n.digest) { assert MsgCommit(i.commitVotes[w]) in sent; }
  }

  /** The replicas of `a` all sent the ticket `p`, for the side `chain`, and are as many as the quorum it states. */
  ghost predicate ChainQuorum(cfg: Config, sent: set<Msg>, commit: bool, t: Target, chain: string, p: PhaseVote, a: set<string>) {
    && Matches(cfg.chain, t, chain, p) && |a| >= p.quorum >= 3
    && forall w | w in a :: (if commit then MsgCommit(p.(replicaID := w)) else MsgPrepare(p.(replicaID := w))) in sent
  }

  /** The same for a cross-chain instance that was not renumbered against its votes: each phase stands on one ticket per
      chain, really sent by as many replicas as the quorum it states, and no replica counts for both chains. */
  lemma CrossChainStandsOnQuorums(cfg: Config, run: seq<System>, es: seq<Event>, id: string, n: Name, commit: bool)
      returns (p: PhaseVote, a: set<string>, u: PhaseVote, b: set<string>)
    requires IsRun(cfg, run, es) && id in cfg.replicas && NeverBreaks(cfg, run, es, id)
    requires id in Final(run).replicas && n in Final(run).replicas[id].instances
    requires var i := Final(run).replicas[id].instances[n]; i.committed && i.target.fromChain != i.target.toChain
    ensures var t, sent := Final(run).replicas[id].instances[n].target, Final(run).sent;
            && ChainQuorum(cfg, sent, commit, t, t.fromChain, p, a)
            && ChainQuorum(cfg, sent, commit, t, t.toChain, u, b)
    ensures a !! b
  {
    RunSupported(cfg, run, es, id);
    CertifiedUpTo(cfg, run, es, id, |es|);
    var i, sent := Final(run).replicas[id].instances[n], Final(run).sent;
    assert Certified(cfg.chain, i) && VotesSent(sent, i);
    var votes := if commit then i.commitVotes else i.prepareVotes;
    p, a, u, b := CrossChainCertificate(cfg.chain, i, votes);
    SameTicket(votes, p, a);
    SameTicket(votes, u, b);
    assert forall w | w in a + b :: (if commit then MsgCommit(votes[w]) else MsgPrepare(votes[w])) in sent;
  }

  /** Votes with the key of a ticket are that ticket under the voter's name. */
  lemma SameTicket(votes: Ballot, p: PhaseVote, a: set<string>)
    requires forall w | w in a :: w in votes && votes[w].replicaID == w && PhaseKey(votes[w]) == PhaseKey(p)
    ensures forall w | w in a :: votes[w] == p.(replicaID := w)
  {
    forall w | w in a ensures votes[w] == p.(replicaID := w) {
      assert PhaseKey(votes[w]).(replicaID := w) == PhaseKey(p).(replicaID := w);
    }
  }

  // ---------------------------------------------------------------- the code behind a step

  /** What recvCommitted does, behind the guard of handleConsensusMsg, is the step RecvCommitted. */
  lemma ReceivedIsStep(cfg: Config, r: Replica, ct: Committed, after: map<Name, Tally>, passed: bool)
    requires ct.chain == cfg.chain && ct.seqNo > r.log.exec
    requires A.Received(cfg.q, r.tallies, ct, ct.seqNo <= r.log.exec || ct.seqNo in r.log.store, r.log.exec, after, passed)
    ensures RecvCommittedStep(cfg, r, ct, r.(tallies := after, queue := if passed then r.queue + [ct] else r.queue))
  {
    assert A.TallyIn(r.tallies, ct.name) == TallyOf(r, ct.name);
    if ct.seqNo !in r.log.store {
      var t := Recorded(TallyOf(r, ct.name), ct.replicaID, ct);
      assert after == if passed then r.tallies - {ct.name} else r.tallies[ct.name := t];
    }
  }
}
