/**
 * Runs that show where the guarantees end. One faulty replica, the primary, is enough to reach the bound of the agreement
 * theorem: as few replicas as possible announce two batches at one seqNo, and two correct replicas deliver different
 * batches. And without any faulty replica a batch that is submitted twice loses its certificate.
 */
module Sharpness {
  import opened Words
  import opened Messages
  import opened Votes
  import opened Phases
  import P = Protocol
  import D = Delivery

  /** A run, built from its end. */
  datatype Trace = Begun(s: P.System) | Stepped(earlier: Trace, e: P.Event, s: P.System)

  ghost predicate Traced(cfg: P.Config, t: Trace) {
    match t
    case Begun(s) => P.Init(cfg, s)
    case Stepped(earlier, e, s) => Traced(cfg, earlier) && P.Next(cfg, earlier.s, e.id, e.step, s)
  }

  /** A run that ends in `s`. */
  ghost predicate Reaches(cfg: P.Config, t: Trace, s: P.System) {
    Traced(cfg, t) && t.s == s
  }

  /** The states and the events of a trace in order. */
  lemma {:induction false} InOrder(cfg: P.Config, t: Trace) returns (run: seq<P.System>, es: seq<P.Event>)
    requires Traced(cfg, t)
    ensures P.IsRun(cfg, run, es) && P.Final(run) == t.s
    decreases t
  {
    match t
    case Begun(s) =>
      run, es := [s], [];
    case Stepped(earlier, e, s) =>
      var run', es' := InOrder(cfg, earlier);
      run, es := run' + [s], es' + [e];
      forall j | 0 <= j < |es| ensures P.Next(cfg, run[j], es[j].id, es[j].step, run[j + 1]) {
        if j < |es'| { assert P.Next(cfg, run'[j], es'[j].id, es'[j].step, run'[j + 1]); }
      }
  }

  /** A step of one replica. */
  lemma Extend(cfg: P.Config, t: Trace, s: P.System, id: string, step: P.Step, r': P.Replica, out: set<P.Msg>, s': P.System)
      returns (t': Trace)
    requires Reaches(cfg, t, s) && id in s.replicas && P.ReplicaStep(cfg, id, s.sent, s.replicas[id], step, r', out)
    requires s' == P.System(s.replicas[id := r'], s.sent + out)
    ensures Reaches(cfg, t', s')
  {
    assert s'.replicas == s.replicas[id := s'.replicas[id]];
    t' := Stepped(t, P.Event(id, step), s');
  }

  /** The system with replica `a` in another state. */
  ghost function With(s: P.System, a: string, r: P.Replica): P.System {
    s.(replicas := s.replicas[a := r])
  }

  /** A step that only changes replica `a`. */
  lemma ExtendAt(cfg: P.Config, t: Trace, s: P.System, a: string, r: P.Replica, step: P.Step, r': P.Replica) returns (t': Trace)
    requires a in s.replicas && Reaches(cfg, t, With(s, a, r)) && P.ReplicaStep(cfg, a, s.sent, r, step, r', {})
    ensures Reaches(cfg, t', With(s, a, r'))
  {
    var u := With(s, a, r);
    assert u.replicas[a := r'] == s.replicas[a := r'] && u.sent + {} == s.sent;
    t' := Extend(cfg, t, u, a, step, r', {}, With(s, a, r'));
  }

  // ---------------------------------------------------------------- what is said

  /** The announcement of `b` at seqNo 1 by `id`. */
  function Note(cfg: P.Config, id: string, b: RequestBatch): Committed {
    Committed(b.Key(), "", cfg.chain, id, 1, b)
  }

  ghost function Notes(cfg: P.Config, ids: set<string>, b: RequestBatch): set<P.Msg> {
    set id | id in ids :: P.MsgCommitted(Note(cfg, id, b))
  }

  /** The prepare and commit vote of `id` for `b` at seqNo 1 in the view of `p`. */
  function Ticket(cfg: P.Config, p: string, id: string, b: RequestBatch): PhaseVote {
    PhaseVote(b.Key(), p, cfg.chain, id, 1, DigestOf(b), cfg.q)
  }

  function Proposal(cfg: P.Config, p: string, b: RequestBatch): P.Msg {
    P.MsgPrePrepare(PrePrepare(b.Key(), p, cfg.chain, p, 1, b))
  }

  datatype Phase = Start | Prepare | Commit | Done

  function Before(phase: Phase): Phase {
    match phase case Start => Start case Prepare => Start case Commit => Prepare case Done => Commit
  }

  /** What a replica says when it reaches a phase. */
  function Say(cfg: P.Config, p: string, phase: Phase, id: string, b: RequestBatch): P.Msg {
    match phase
    case Start => Proposal(cfg, p, b)
    case Prepare => P.MsgPrepare(Ticket(cfg, p, id, b))
    case Commit => P.MsgCommit(Ticket(cfg, p, id, b))
    case Done => P.MsgCommitted(Note(cfg, id, b))
  }

  ghost function Says(cfg: P.Config, p: string, phase: Phase, ids: set<string>, b: RequestBatch): set<P.Msg> {
    set id | id in ids :: Say(cfg, p, phase, id, b)
  }

  /** The votes of these replicas. */
  ghost function VotesOf(cfg: P.Config, p: string, ids: set<string>, b: RequestBatch): Ballot {
    map id | id in ids :: Ticket(cfg, p, id, b)
  }

  /** The instance of `b` after a phase in which exactly the replicas `x` voted. */
  ghost function Inst(cfg: P.Config, p: string, phase: Phase, x: set<string>, b: RequestBatch): Instance {
    var votes, t := VotesOf(cfg, p, x, b), TargetOf(cfg.chain, 1, b);
    match phase
    case Start => FRESH
    case Prepare => Instance(true, false, false, Some(b), t, map[], map[])
    case Commit => Instance(true, true, false, Some(b), t, votes, map[])
    case Done => Instance(true, true, true, Some(b), t, votes, votes)
  }

  ghost function After(cfg: P.Config, p: string, phase: Phase, x: set<string>, b: RequestBatch, a: string, r: P.Replica): P.Replica {
    r.(instances := r.instances[b.Key() := Inst(cfg, p, phase, x, b)],
       pending := r.pending + if phase.Done? then {Note(cfg, a, b)} else {})
  }

  // ---------------------------------------------------------------- one replica in one phase

  /** A batch of this chain only: one that closes a block, or whose first request stays on the chain. */
  predicate LocalBatch(chain: string, b: RequestBatch) {
    if b.requests == [] then b.id == EMPTY_BLOCK || chain == ""
    else b.requests[0].fromChain == chain && (b.id == EMPTY_BLOCK || b.index == 0 || b.requests[0].toChain == chain)
  }

  /** Replica `r`, in the first view, is behind the phase, and has heard what it needs. */
  ghost predicate Ready(cfg: P.Config, p: string, phase: Phase, x: set<string>, b: RequestBatch, sent: set<P.Msg>, r: P.Replica) {
    && !r.stopped && r.primary == p && r.lastSeqNo == 0
    && P.InstanceOf(r, b.Key()) == Inst(cfg, p, Before(phase), x, b)
    && (phase.Prepare? ==> Proposal(cfg, p, b) in sent)
    && (phase.Commit? || phase.Done? ==> Says(cfg, p, Before(phase), x, b) <= sent)
  }

  ghost predicate Scene(cfg: P.Config, p: string, x: set<string>, b: RequestBatch) {
    && cfg.Valid() && p in cfg.replicas && x <= cfg.replicas && |x| == cfg.q >= 3 && LocalBatch(cfg.chain, b)
  }

  /** The instance while the votes of a phase come in. */
  ghost function Collecting(cfg: P.Config, p: string, phase: Phase, x: set<string>, ids: set<string>, b: RequestBatch): Instance {
    var i := Inst(cfg, p, Before(phase), x, b);
    if phase.Commit? then i.(prepareVotes := VotesOf(cfg, p, ids, b)) else i.(commitVotes := VotesOf(cfg, p, ids, b))
  }

  ghost function CollectingAt(cfg: P.Config, p: string, phase: Phase, x: set<string>, ids: set<string>, b: RequestBatch, r: P.Replica): P.Replica {
    r.(instances := r.instances[b.Key() := Collecting(cfg, p, phase, x, ids, b)])
  }

  function Hear(cfg: P.Config, p: string, phase: Phase, id: string, b: RequestBatch): P.Step {
    if phase.Commit? then P.RecvPrepare(Ticket(cfg, p, id, b)) else P.RecvCommit(Ticket(cfg, p, id, b))
  }

  /** All votes for the batch make its quorum. */
  lemma FullBallot(cfg: P.Config, p: string, x: set<string>, b: RequestBatch)
    requires Scene(cfg, p, x, b)
    ensures HasQuorums(cfg.chain, TargetOf(cfg.chain, 1, b), VotesOf(cfg, p, x, b))
  {
    var w :| w in x;
    var votes, t := VotesOf(cfg, p, x, b), TargetOf(cfg.chain, 1, b);
    assert Backers(votes, votes[w]) == x;
    assert QuorumTicket(cfg.chain, t, votes, cfg.chain, votes[w]);
  }

  lemma HearOne(cfg: P.Config, p: string, phase: Phase, x: set<string>, b: RequestBatch, sent: set<P.Msg>, a: string,
                r: P.Replica, ids: set<string>, id: string)
    requires Scene(cfg, p, x, b) && (phase.Commit? || phase.Done?) && Ready(cfg, p, phase, x, b, sent, r)
    requires ids <= x && id in x - ids
    ensures P.ReplicaStep(cfg, a, sent, CollectingAt(cfg, p, phase, x, ids, b, r), Hear(cfg, p, phase, id, b),
                          CollectingAt(cfg, p, phase, x, ids + {id}, b, r), {})
  {
    var i, i' := Collecting(cfg, p, phase, x, ids, b), Collecting(cfg, p, phase, x, ids + {id}, b);
    var v := Ticket(cfg, p, id, b);
    assert VotesOf(cfg, p, ids + {id}, b) == Recorded(VotesOf(cfg, p, ids, b), id, v);
    assert Say(cfg, p, Before(phase), id, b) in sent;
    var before, after := CollectingAt(cfg, p, phase, x, ids, b, r), CollectingAt(cfg, p, phase, x, ids + {id}, b, r);
    assert after.instances == before.instances[b.Key() := i'];
    assert after.pending == before.pending + {};
  }

  /** The last vote completes the phase. */
  lemma HearLast(cfg: P.Config, p: string, phase: Phase, x: set<string>, b: RequestBatch, sent: set<P.Msg>, a: string,
                 r: P.Replica, id: string)
    requires Scene(cfg, p, x, b) && (phase.Commit? || phase.Done?) && Ready(cfg, p, phase, x, b, sent, r) && id in x
    ensures P.ReplicaStep(cfg, a, sent, CollectingAt(cfg, p, phase, x, x - {id}, b, r), Hear(cfg, p, phase, id, b),
                          After(cfg, p, phase, x, b, a, r), if phase.Commit? then {Say(cfg, p, phase, a, b)} else {})
  {
    var i, i' := Collecting(cfg, p, phase, x, x - {id}, b), Inst(cfg, p, phase, x, b);
    var v := Ticket(cfg, p, id, b);
    assert VotesOf(cfg, p, x, b) == Recorded(VotesOf(cfg, p, x - {id}, b), id, v);
    assert Say(cfg, p, Before(phase), id, b) in sent;
    FullBallot(cfg, p, x, b);
    var before, after := CollectingAt(cfg, p, phase, x, x - {id}, b, r), After(cfg, p, phase, x, b, a, r);
    assert after.instances == before.instances[b.Key() := i'];
  }

  lemma {:induction false} HearSome(cfg: P.Config, t: Trace, s: P.System, p: string, phase: Phase, x: set<string>, b: RequestBatch,
                                    a: string, ids: set<string>) returns (t': Trace)
    requires Scene(cfg, p, x, b) && (phase.Commit? || phase.Done?) && a in s.replicas && ids <= x
    requires Ready(cfg, p, phase, x, b, s.sent, s.replicas[a])
    requires Reaches(cfg, t, With(s, a, CollectingAt(cfg, p, phase, x, {}, b, s.replicas[a])))
    ensures Reaches(cfg, t', With(s, a, CollectingAt(cfg, p, phase, x, ids, b, s.replicas[a])))
    decreases ids
  {
    if ids == {} {
      t' := t;
    } else {
      var id :| id in ids;
      var less, r := ids - {id}, s.replicas[a];
      t' := HearSome(cfg, t, s, p, phase, x, b, a, less);
      HearOne(cfg, p, phase, x, b, s.sent, a, r, less, id);
      assert less + {id} == ids;
      t' := ExtendAt(cfg, t', s, a, CollectingAt(cfg, p, phase, x, less, b, r), Hear(cfg, p, phase, id, b),
                     CollectingAt(cfg, p, phase, x, ids, b, r));
    }
  }

  /** A replica that hears all votes of a phase but one. */
  lemma HearAllBut(cfg: P.Config, t: Trace, s: P.System, p: string, phase: Phase, x: set<string>, b: RequestBatch,
                   a: string, id: string) returns (t': Trace)
    requires Scene(cfg, p, x, b) && (phase.Commit? || phase.Done?) && a in s.replicas && id in x
    requires Ready(cfg, p, phase, x, b, s.sent, s.replicas[a]) && Reaches(cfg, t, s) && b.Key() in s.replicas[a].instances
    ensures Reaches(cfg, t', With(s, a, CollectingAt(cfg, p, phase, x, x - {id}, b, s.replicas[a])))
  {
    var r := s.replicas[a];
    assert VotesOf(cfg, p, {}, b) == map[];
    assert Collecting(cfg, p, phase, x, {}, b) == r.instances[b.Key()];
    assert r.instances[b.Key() := r.instances[b.Key()]] == r.instances;
    assert With(s, a, CollectingAt(cfg, p, phase, x, {}, b, r)) == s;
    t' := HearSome(cfg, t, s, p, phase, x, b, a, x - {id});
  }

  /** The system after replica `a` went through the phase and said so. */
  ghost function AfterOne(cfg: P.Config, p: string, phase: Phase, x: set<string>, b: RequestBatch, s: P.System, a: string): P.System
    requires a in s.replicas
  {
    P.System(s.replicas[a := After(cfg, p, phase, x, b, a, s.replicas[a])], s.sent + {Say(cfg, p, phase, a, b)})
  }

  lemma AcceptProposal(cfg: P.Config, sent: set<P.Msg>, p: string, x: set<string>, b: RequestBatch, a: string, r: P.Replica)
    requires Scene(cfg, p, x, b) && Ready(cfg, p, Prepare, x, b, sent, r)
    ensures P.ReplicaStep(cfg, a, sent, r, P.RecvPrePrepare(Proposal(cfg, p, b).pp, true), After(cfg, p, Prepare, x, b, a, r),
                          {Say(cfg, p, Prepare, a, b)})
  {
    assert r.pending + {} == r.pending;
  }

  lemma PrepareTurn(cfg: P.Config, t: Trace, s: P.System, p: string, x: set<string>, b: RequestBatch, a: string)
      returns (t': Trace)
    requires Scene(cfg, p, x, b) && Reaches(cfg, t, s) && a in s.replicas
    requires Ready(cfg, p, Prepare, x, b, s.sent, s.replicas[a])
    ensures Reaches(cfg, t', AfterOne(cfg, p, Prepare, x, b, s, a))
  {
    AcceptProposal(cfg, s.sent, p, x, b, a, s.replicas[a]);
    t' := Extend(cfg, t, s, a, P.RecvPrePrepare(Proposal(cfg, p, b).pp, true), After(cfg, p, Prepare, x, b, a, s.replicas[a]),
                 {Say(cfg, p, Prepare, a, b)}, AfterOne(cfg, p, Prepare, x, b, s, a));
  }

  lemma CommitTurn(cfg: P.Config, t: Trace, s: P.System, p: string, x: set<string>, b: RequestBatch, a: string)
      returns (t': Trace)
    requires Scene(cfg, p, x, b) && Reaches(cfg, t, s) && a in s.replicas
    requires Ready(cfg, p, Commit, x, b, s.sent, s.replicas[a])
    ensures Reaches(cfg, t', AfterOne(cfg, p, Commit, x, b, s, a))
  {
    var r, id :| r == s.replicas[a] && id in x;
    t' := HearAllBut(cfg, t, s, p, Commit, x, b, a, id);
    var u, r' := With(s, a, CollectingAt(cfg, p, Commit, x, x - {id}, b, r)), After(cfg, p, Commit, x, b, a, r);
    HearLast(cfg, p, Commit, x, b, s.sent, a, r, id);
    assert u.replicas[a := r'] == s.replicas[a := r'];
    t' := Extend(cfg, t', u, a, Hear(cfg, p, Commit, id, b), r', {Say(cfg, p, Commit, a, b)}, AfterOne(cfg, p, Commit, x, b, s, a));
  }

  lemma DoneTurn(cfg: P.Config, t: Trace, s: P.System, p: string, x: set<string>, b: RequestBatch, a: string)
      returns (t': Trace)
    requires Scene(cfg, p, x, b) && Reaches(cfg, t, s) && a in s.replicas
    requires Ready(cfg, p, Done, x, b, s.sent, s.replicas[a])
    ensures Reaches(cfg, t', AfterOne(cfg, p, Done, x, b, s, a))
  {
    var r, id :| r == s.replicas[a] && id in x;
    t' := HearAllBut(cfg, t, s, p, Done, x, b, a, id);
    var u, r' := CollectingAt(cfg, p, Done, x, x - {id}, b, r), After(cfg, p, Done, x, b, a, r);
    HearLast(cfg, p, Done, x, b, s.sent, a, r, id);
    t' := ExtendAt(cfg, t', s, a, u, Hear(cfg, p, Done, id, b), r');
    var w := With(s, a, r');
    assert w.replicas[a := r'] == s.replicas[a := r'] && Note(cfg, a, b) in r'.pending;
    t' := Extend(cfg, t', w, a, P.AnnounceCommitted(Note(cfg, a, b)), r', {Say(cfg, p, Done, a, b)}, AfterOne(cfg, p, Done, x, b, s, a));
  }

  // ---------------------------------------------------------------- all replicas in one phase

  ghost function AfterAll(cfg: P.Config, p: string, phase: Phase, x: set<string>, b: RequestBatch, s: P.System, ids: set<string>): P.System
    requires ids <= s.replicas.Keys
  {
    P.System(map a | a in s.replicas :: if a in ids then After(cfg, p, phase, x, b, a, s.replicas[a]) else s.replicas[a],
             s.sent + Says(cfg, p, phase, ids, b))
  }

  lemma OneMore(cfg: P.Config, p: string, phase: Phase, x: set<string>, b: RequestBatch, s: P.System, ids: set<string>, a: string)
    requires ids <= s.replicas.Keys && a in ids
    ensures AfterOne(cfg, p, phase, x, b, AfterAll(cfg, p, phase, x, b, s, ids - {a}), a) == AfterAll(cfg, p, phase, x, b, s, ids)
  {
    var u := AfterAll(cfg, p, phase, x, b, s, ids - {a});
    assert u.sent + {Say(cfg, p, phase, a, b)} == s.sent + Says(cfg, p, phase, ids, b);
    assert u.replicas[a] == s.replicas[a];
  }

  lemma {:induction false} Round(cfg: P.Config, t: Trace, s: P.System, p: string, phase: Phase, x: set<string>, b: RequestBatch,
                                 ids: set<string>) returns (t': Trace)
    requires Scene(cfg, p, x, b) && !phase.Start? && Reaches(cfg, t, s) && ids <= s.replicas.Keys
    requires forall a | a in ids :: Ready(cfg, p, phase, x, b, s.sent, s.replicas[a])
    ensures Reaches(cfg, t', AfterAll(cfg, p, phase, x, b, s, ids))
    decreases ids
  {
    if ids == {} {
      assert AfterAll(cfg, p, phase, x, b, s, ids) == s;
      t' := t;
    } else {
      var a :| a in ids;
      t' := Round(cfg, t, s, p, phase, x, b, ids - {a});
      var u := AfterAll(cfg, p, phase, x, b, s, ids - {a});
      assert Ready(cfg, p, phase, x, b, s.sent, u.replicas[a]) && s.sent <= u.sent;
      match phase {
        case Prepare => t' := PrepareTurn(cfg, t', u, p, x, b, a);
        case Commit => t' := CommitTurn(cfg, t', u, p, x, b, a);
        case Done => t' := DoneTurn(cfg, t', u, p, x, b, a);
      }
      OneMore(cfg, p, phase, x, b, s, ids, a);
    }
  }

  // ---------------------------------------------------------------- counting

  /** The tally of these announcers. */
  ghost function TallyOf(cfg: P.Config, ids: set<string>, b: RequestBatch): P.Tally {
    map id | id in ids :: Note(cfg, id, b)
  }

  lemma TallySize(cfg: P.Config, ids: set<string>, b: RequestBatch, id: string)
    ensures Supporters(TallyOf(cfg, ids, b), CommittedKey, CommittedKey(Note(cfg, id, b))) == ids
  {
  }

  /** The replica after these announcements, fewer than a quorum. */
  ghost function Counting(cfg: P.Config, r: P.Replica, ids: set<string>, b: RequestBatch): P.Replica {
    if ids == {} then r else r.(tallies := r.tallies[b.Key() := TallyOf(cfg, ids, b)])
  }

  ghost predicate Fresh(r: P.Replica) {
    !r.stopped && r.tallies == map[] && r.queue == [] && r.log == D.State(0, map[], [])
  }

  /** One announcement more: counted, or the one that completes the quorum. */
  lemma CountOne(cfg: P.Config, sent: set<P.Msg>, a: string, r: P.Replica, ids: set<string>, id: string, b: RequestBatch)
    requires Fresh(r) && id !in ids && P.MsgCommitted(Note(cfg, id, b)) in sent
    ensures |ids| + 1 < cfg.q ==>
              P.ReplicaStep(cfg, a, sent, Counting(cfg, r, ids, b), P.RecvCommitted(Note(cfg, id, b)),
                            Counting(cfg, r, ids + {id}, b), {})
    ensures |ids| + 1 == cfg.q ==>
              P.ReplicaStep(cfg, a, sent, Counting(cfg, r, ids, b), P.RecvCommitted(Note(cfg, id, b)),
                            r.(queue := [Note(cfg, id, b)]), {})
  {
    var before, c := Counting(cfg, r, ids, b), Note(cfg, id, b);
    var t := Recorded(P.TallyOf(before, c.name), id, c);
    assert t == TallyOf(cfg, ids + {id}, b);
    TallySize(cfg, ids + {id}, b, id);
    assert |ids + {id}| == |ids| + 1;
    assert before.tallies - {c.name} == map[];
    assert before.tallies[c.name := t] == r.tallies[c.name := t];
  }

  lemma {:induction false} Count(cfg: P.Config, t: Trace, s: P.System, a: string, ids: set<string>, b: RequestBatch)
      returns (t': Trace)
    requires Reaches(cfg, t, s) && a in s.replicas && Fresh(s.replicas[a]) && |ids| < cfg.q && Notes(cfg, ids, b) <= s.sent
    ensures Reaches(cfg, t', With(s, a, Counting(cfg, s.replicas[a], ids, b)))
    decreases ids
  {
    var r := s.replicas[a];
    if ids == {} {
      assert With(s, a, r) == s;
      t' := t;
    } else {
      var id :| id in ids;
      var less := ids - {id};
      t' := Count(cfg, t, s, a, less, b);
      assert P.MsgCommitted(Note(cfg, id, b)) in s.sent;
      CountOne(cfg, s.sent, a, r, less, id, b);
      assert less + {id} == ids;
      t' := ExtendAt(cfg, t', s, a, Counting(cfg, r, less, b), P.RecvCommitted(Note(cfg, id, b)), Counting(cfg, r, ids, b));
    }
  }

  // ---------------------------------------------------------------- delivery

  ghost predicate DeliveredOnly(r: P.Replica, b: RequestBatch) {
    r.log.out == [D.Entry(1, Some(b))]
  }

  lemma StoreFirst(cfg: P.Config, sent: set<P.Msg>, a: string, r: P.Replica, id: string, b: RequestBatch) returns (r': P.Replica)
    requires Fresh(r)
    ensures DeliveredOnly(r', b)
    ensures P.ReplicaStep(cfg, a, sent, r.(queue := [Note(cfg, id, b)]), P.StoreCommitted, r', {})
  {
    var queued := r.(queue := [Note(cfg, id, b)]);
    D.FirstResult(cfg.K, 1, b);
    r' := queued.(queue := queued.queue[1..], log := D.Add(cfg.K, r.log, 1, b), instances := r.instances - {b.Key()},
                  lastSeqNo := D.Raised(r.lastSeqNo, 1), stopped := D.Panics(cfg.K, r.log, 1, b));
  }

  /** Replica `a` hears a quorum of announcements and delivers the batch. */
  lemma Deliver(cfg: P.Config, t: Trace, s: P.System, a: string, ids: set<string>, b: RequestBatch)
      returns (t': Trace, r': P.Replica)
    requires Reaches(cfg, t, s) && a in s.replicas && Fresh(s.replicas[a])
    requires |ids| == cfg.q >= 1 && Notes(cfg, ids, b) <= s.sent
    ensures DeliveredOnly(r', b) && Reaches(cfg, t', With(s, a, r'))
  {
    var id :| id in ids;
    var r, less := s.replicas[a], ids - {id};
    assert Notes(cfg, less, b) <= Notes(cfg, ids, b) && P.MsgCommitted(Note(cfg, id, b)) in Notes(cfg, ids, b);
    t' := Count(cfg, t, s, a, less, b);
    CountOne(cfg, s.sent, a, r, less, id, b);
    var queued := r.(queue := [Note(cfg, id, b)]);
    t' := ExtendAt(cfg, t', s, a, Counting(cfg, r, less, b), P.RecvCommitted(Note(cfg, id, b)), queued);
    r' := StoreFirst(cfg, s.sent, a, r, id, b);
    t' := ExtendAt(cfg, t', s, a, queued, P.StoreCommitted, r');
  }

  // ---------------------------------------------------------------- a batch goes through all phases

  /** Nothing but the instance of `b` and the announcements moved. */
  ghost predicate Same(r: P.Replica, r': P.Replica, b: RequestBatch) {
    && r' == r.(instances := r'.instances, pending := r'.pending)
    && forall n | n != b.Key() :: P.InstanceOf(r', n) == P.InstanceOf(r, n)
  }

  ghost predicate Moved(s: P.System, s': P.System, b: RequestBatch) {
    s'.replicas.Keys == s.replicas.Keys && forall a | a in s.replicas :: Same(s.replicas[a], s'.replicas[a], b)
  }

  /** The faulty primary sends a message under its own name. */
  lemma Lie(cfg: P.Config, t: Trace, s: P.System, p: string, m: P.Msg) returns (t': Trace)
    requires Reaches(cfg, t, s) && p in s.replicas && p in cfg.faulty && !s.replicas[p].stopped && m.Sender() == p
    ensures Reaches(cfg, t', s.(sent := s.sent + {m}))
  {
    assert s.replicas[p := s.replicas[p]] == s.replicas;
    t' := Extend(cfg, t, s, p, P.Misbehave(m), s.replicas[p], {m}, s.(sent := s.sent + {m}));
  }

  lemma AfterAllMoved(cfg: P.Config, p: string, phase: Phase, x: set<string>, b: RequestBatch, s: P.System, ids: set<string>)
    requires ids <= s.replicas.Keys
    ensures var s' := AfterAll(cfg, p, phase, x, b, s, ids);
            && Moved(s, s', b)
            && forall a | a in ids :: P.InstanceOf(s'.replicas[a], b.Key()) == Inst(cfg, p, phase, x, b)
  {
  }

  /** The replicas of `ids` have the instance of `b` after the phase. */
  ghost predicate Reached(cfg: P.Config, p: string, phase: Phase, x: set<string>, b: RequestBatch, s: P.System, ids: set<string>) {
    forall a | a in ids :: a in s.replicas && P.InstanceOf(s.replicas[a], b.Key()) == Inst(cfg, p, phase, x, b)
  }

  /** What the replicas need to hear before the phase. */
  ghost predicate Heard(cfg: P.Config, p: string, phase: Phase, x: set<string>, b: RequestBatch, sent: set<P.Msg>) {
    && (phase.Prepare? ==> Proposal(cfg, p, b) in sent)
    && (phase.Commit? || phase.Done? ==> Says(cfg, p, Before(phase), x, b) <= sent)
  }

  lemma AllReady(cfg: P.Config, p: string, phase: Phase, x: set<string>, b: RequestBatch, s: P.System, ids: set<string>)
    requires Up(cfg, s, p) && Reached(cfg, p, Before(phase), x, b, s, ids) && Heard(cfg, p, phase, x, b, s.sent)
    ensures forall a | a in ids :: a in s.replicas && Ready(cfg, p, phase, x, b, s.sent, s.replicas[a])
  {
  }

  /** The correct replicas of `x` go through a phase. */
  lemma CorrectRound(cfg: P.Config, t: Trace, s: P.System, p: string, phase: Phase, x: set<string>, b: RequestBatch, ids: set<string>)
      returns (t': Trace, s': P.System)
    requires Scene(cfg, p, x, b) && !phase.Start? && Reaches(cfg, t, s) && Up(cfg, s, p) && ids <= s.replicas.Keys
    requires Reached(cfg, p, Before(phase), x, b, s, ids) && Heard(cfg, p, phase, x, b, s.sent)
    ensures Reaches(cfg, t', s') && Moved(s, s', b) && s'.sent == s.sent + Says(cfg, p, phase, ids, b)
    ensures Up(cfg, s', p) && Reached(cfg, p, phase, x, b, s', ids)
  {
    AllReady(cfg, p, phase, x, b, s, ids);
    t' := Round(cfg, t, s, p, phase, x, b, ids);
    s' := AfterAll(cfg, p, phase, x, b, s, ids);
    AfterAllMoved(cfg, p, phase, x, b, s, ids);
    StaysUp(cfg, s, s', p, b);
  }

  lemma SayAll(cfg: P.Config, p: string, phase: Phase, x: set<string>, b: RequestBatch)
    ensures Says(cfg, p, phase, x - {p}, b) + (if p in x then {Say(cfg, p, phase, p, b)} else {}) == Says(cfg, p, phase, x, b)
  {
  }

  /** The faulty primary just says what the correct replicas say. */
  lemma PrimarySays(cfg: P.Config, t: Trace, s: P.System, p: string, phase: Phase, x: set<string>, b: RequestBatch)
      returns (t': Trace, s': P.System)
    requires Reaches(cfg, t, s) && p in cfg.faulty && p in s.replicas && !s.replicas[p].stopped
    ensures Reaches(cfg, t', s') && s'.replicas == s.replicas
    ensures s'.sent == s.sent + if p in x then {Say(cfg, p, phase, p, b)} else {}
  {
    t', s' := t, s;
    if p in x {
      t' := Lie(cfg, t, s, p, Say(cfg, p, phase, p, b));
      s' := s.(sent := s.sent + {Say(cfg, p, phase, p, b)});
    }
  }

  /** Every replica of `x` goes through a phase; the primary, if it is one of them, just says so. */
  lemma FullRound(cfg: P.Config, t: Trace, s: P.System, p: string, phase: Phase, x: set<string>, b: RequestBatch)
      returns (t': Trace, s': P.System)
    requires Scene(cfg, p, x, b) && p in cfg.faulty && !phase.Start? && Reaches(cfg, t, s) && Up(cfg, s, p)
    requires Reached(cfg, p, Before(phase), x, b, s, x - {p}) && Heard(cfg, p, phase, x, b, s.sent)
    ensures Reaches(cfg, t', s') && Moved(s, s', b) && s'.sent == s.sent + Says(cfg, p, phase, x, b)
    ensures Up(cfg, s', p) && Reached(cfg, p, phase, x, b, s', x - {p})
  {
    var s1: P.System;
    t', s1 := CorrectRound(cfg, t, s, p, phase, x, b, x - {p});
    t', s' := PrimarySays(cfg, t', s1, p, phase, x, b);
    SayAll(cfg, p, phase, x, b);
    SameReplicas(cfg, s, s1, s', p, phase, x, b);
  }

  /** What was reached does not depend on what was said. */
  lemma SameReplicas(cfg: P.Config, s: P.System, s1: P.System, s': P.System, p: string, phase: Phase, x: set<string>, b: RequestBatch)
    requires s'.replicas == s1.replicas && Moved(s, s1, b) && Up(cfg, s1, p) && Reached(cfg, p, phase, x, b, s1, x - {p})
    ensures Moved(s, s', b) && Up(cfg, s', p) && Reached(cfg, p, phase, x, b, s', x - {p})
  {
  }

  lemma HearsNext(cfg: P.Config, p: string, phase: Phase, x: set<string>, b: RequestBatch, sent: set<P.Msg>)
    requires phase.Commit? || phase.Done?
    ensures Heard(cfg, p, phase, x, b, sent + Says(cfg, p, Before(phase), x, b))
  {
  }

  lemma MovedTwice(s: P.System, s': P.System, s'': P.System, b: RequestBatch)
    requires Moved(s, s', b) && Moved(s', s'', b)
    ensures Moved(s, s'', b)
  {
    forall a | a in s.replicas ensures Same(s.replicas[a], s''.replicas[a], b) {
      assert Same(s.replicas[a], s'.replicas[a], b) && Same(s'.replicas[a], s''.replicas[a], b);
    }
  }

  /** All replicas are up in the first view. */
  ghost predicate Up(cfg: P.Config, s: P.System, p: string) {
    && s.replicas.Keys == cfg.replicas
    && forall a | a in s.replicas :: !s.replicas[a].stopped && s.replicas[a].primary == p && s.replicas[a].lastSeqNo == 0
  }

  lemma StaysUp(cfg: P.Config, s: P.System, s': P.System, p: string, b: RequestBatch)
    requires Up(cfg, s, p) && Moved(s, s', b)
    ensures Up(cfg, s', p)
  {
    forall a | a in s'.replicas ensures !s'.replicas[a].stopped && s'.replicas[a].primary == p && s'.replicas[a].lastSeqNo == 0 {
      assert Same(s.replicas[a], s'.replicas[a], b);
    }
  }

  /** What is said about a batch on its way. */
  ghost function Talk(cfg: P.Config, p: string, x: set<string>, b: RequestBatch): set<P.Msg> {
    {Proposal(cfg, p, b)} + Says(cfg, p, Prepare, x, b) + Says(cfg, p, Commit, x, b) + Says(cfg, p, Done, x, b)
  }

  /** The faulty primary proposes `b` at seqNo 1. */
  lemma Open(cfg: P.Config, t: Trace, s: P.System, p: string, x: set<string>, b: RequestBatch) returns (t': Trace, s': P.System)
    requires Scene(cfg, p, x, b) && p in cfg.faulty && Reaches(cfg, t, s) && Up(cfg, s, p)
    requires forall a | a in s.replicas :: P.InstanceOf(s.replicas[a], b.Key()) == FRESH
    ensures Reaches(cfg, t', s') && Moved(s, s', b) && s'.sent == s.sent + {Proposal(cfg, p, b)}
    ensures Up(cfg, s', p) && Reached(cfg, p, Start, x, b, s', x - {p}) && Heard(cfg, p, Prepare, x, b, s'.sent)
  {
    t' := Lie(cfg, t, s, p, Proposal(cfg, p, b));
    s' := s.(sent := s.sent + {Proposal(cfg, p, b)});
  }

  /** The replicas of `x` prepare and commit. */
  lemma FirstRounds(cfg: P.Config, t: Trace, s: P.System, p: string, x: set<string>, b: RequestBatch) returns (t': Trace, s': P.System)
    requires Scene(cfg, p, x, b) && p in cfg.faulty && Reaches(cfg, t, s) && Up(cfg, s, p)
    requires Reached(cfg, p, Start, x, b, s, x - {p}) && Heard(cfg, p, Prepare, x, b, s.sent)
    ensures Reaches(cfg, t', s') && Moved(s, s', b)
    ensures s'.sent == s.sent + Says(cfg, p, Prepare, x, b) + Says(cfg, p, Commit, x, b)
    ensures Up(cfg, s', p) && Reached(cfg, p, Commit, x, b, s', x - {p}) && Heard(cfg, p, Done, x, b, s'.sent)
  {
    var s1: P.System;
    t', s1 := FullRound(cfg, t, s, p, Prepare, x, b);
    HearsNext(cfg, p, Commit, x, b, s.sent);
    t', s' := FullRound(cfg, t', s1, p, Commit, x, b);
    HearsNext(cfg, p, Done, x, b, s1.sent);
    MovedTwice(s, s1, s', b);
  }

  /** The primary proposes `b` at seqNo 1, and the replicas of `x` prepare, commit and announce it. */
  lemma Through(cfg: P.Config, t: Trace, s: P.System, p: string, x: set<string>, b: RequestBatch) returns (t': Trace, s': P.System)
    requires Scene(cfg, p, x, b) && p in cfg.faulty && Reaches(cfg, t, s) && Up(cfg, s, p)
    requires forall a | a in s.replicas :: P.InstanceOf(s.replicas[a], b.Key()) == FRESH
    ensures Reaches(cfg, t', s') && Moved(s, s', b) && Up(cfg, s', p) && s'.sent == s.sent + Talk(cfg, p, x, b)
  {
    var s0: P.System, s1: P.System;
    t', s0 := Open(cfg, t, s, p, x, b);
    t', s1 := FirstRounds(cfg, t', s0, p, x, b);
    t', s' := FullRound(cfg, t', s1, p, Done, x, b);
    MovedTwice(s, s0, s1, b);
    MovedTwice(s, s1, s', b);
    Joined(s.sent, {Proposal(cfg, p, b)}, Says(cfg, p, Prepare, x, b), Says(cfg, p, Commit, x, b), Says(cfg, p, Done, x, b));
  }

  lemma Joined(s: set<P.Msg>, a: set<P.Msg>, b: set<P.Msg>, c: set<P.Msg>, d: set<P.Msg>)
    ensures s + a + b + c + d == s + (a + b + c + d)
  {
  }

  // ---------------------------------------------------------------- the run

  ghost function Begin(cfg: P.Config, p: string): P.System {
    P.System(map id | id in cfg.replicas :: P.Replica(p, 0, 0, map[], {}, map[], [], D.State(0, map[], []), false), {})
  }

  /** Exactly the replicas that announced both batches equivocate. */
  lemma EquivocatorsAre(cfg: P.Config, sent: set<P.Msg>, x: set<string>, y: set<string>, b1: RequestBatch, b2: RequestBatch)
    requires x <= cfg.replicas && y <= cfg.replicas && b1 != b2
    requires forall c :: P.MsgCommitted(c) in sent <==> P.MsgCommitted(c) in Notes(cfg, x, b1) + Notes(cfg, y, b2)
    ensures P.Equivocators(cfg, sent) == x * y
  {
    forall id | id in cfg.replicas ensures P.Equivocates(cfg, sent, id) <==> id in x * y {
      if id in x * y {
        assert P.MsgCommitted(Note(cfg, id, b1)) in sent && P.MsgCommitted(Note(cfg, id, b2)) in sent;
        assert P.Announced(cfg, sent, id, 1, b1) && P.Announced(cfg, sent, id, 1, b2);
      } else {
        OneBatchOnly(cfg, sent, x, y, b1, b2, id);
      }
    }
  }

  lemma OneBatchOnly(cfg: P.Config, sent: set<P.Msg>, x: set<string>, y: set<string>, b1: RequestBatch, b2: RequestBatch, id: string)
    requires id !in x * y
    requires forall c :: P.MsgCommitted(c) in sent <==> P.MsgCommitted(c) in Notes(cfg, x, b1) + Notes(cfg, y, b2)
    ensures !P.Equivocates(cfg, sent, id)
  {
    forall s, b | P.Announced(cfg, sent, id, s, b) ensures b == if id in x then b1 else b2 {
      var c :| P.MsgCommitted(c) in sent && c.replicaID == id && c.chain == cfg.chain && c.seqNo == s && c.batch == b;
      assert P.MsgCommitted(c) in Notes(cfg, x, b1) + Notes(cfg, y, b2);
    }
  }

  lemma {:induction false} SubsetOfSize(s: set<string>, k: nat) returns (t: set<string>)
    requires k <= |s|
    ensures t <= s && |t| == k
    decreases |s|
  {
    if k == |s| {
      t := s;
    } else {
      var x :| x in s;
      t := SubsetOfSize(s - {x}, k);
    }
  }

  /** The number of replicas two quorums cannot help sharing. */
  function Overlap(n: nat, q: nat): nat {
    if 2 * q <= n then 0 else 2 * q - n
  }

  /** Two quorums that overlap as little as possible. */
  lemma LeastOverlap(replicas: set<string>, q: nat) returns (x: set<string>, y: set<string>)
    requires q <= |replicas|
    ensures x <= replicas && y <= replicas && |x| == q && |y| == q && |x * y| == Overlap(|replicas|, q)
  {
    x := SubsetOfSize(replicas, q);
    assert |replicas - x| == |replicas| - q;
    if 2 * q <= |replicas| {
      y := SubsetOfSize(replicas - x, q);
      assert x * y == {};
    } else {
      var common := SubsetOfSize(x, 2 * q - |replicas|);
      y := (replicas - x) + common;
      assert x * y == common;
    }
  }

  /** Both batches have gone through their quorums. */
  lemma ThroughBoth(cfg: P.Config, p: string, x: set<string>, y: set<string>, b1: RequestBatch, b2: RequestBatch)
      returns (t: Trace, s: P.System)
    requires Scene(cfg, p, x, b1) && Scene(cfg, p, y, b2) && p in cfg.faulty && b1 != b2
    ensures Reaches(cfg, t, s) && s.replicas.Keys == cfg.replicas && forall a | a in s.replicas :: Fresh(s.replicas[a])
    ensures s.sent == Talk(cfg, p, x, b1) + Talk(cfg, p, y, b2)
  {
    var s0 := Begin(cfg, p);
    var s1: P.System;
    t, s1 := Through(cfg, Begun(s0), s0, p, x, b1);
    forall a | a in s1.replicas ensures P.InstanceOf(s1.replicas[a], b2.Key()) == FRESH && Fresh(s1.replicas[a]) {
      assert Same(s0.replicas[a], s1.replicas[a], b1) && b2.Key() != b1.Key();
    }
    t, s := Through(cfg, t, s1, p, y, b2);
    forall a | a in s.replicas ensures Fresh(s.replicas[a]) {
      assert Same(s1.replicas[a], s.replicas[a], b2);
    }
  }

  /** The announcements among what was said. */
  lemma Announcements(cfg: P.Config, p: string, x: set<string>, b: RequestBatch)
    ensures Notes(cfg, x, b) <= Talk(cfg, p, x, b)
    ensures forall c :: P.MsgCommitted(c) in Talk(cfg, p, x, b) <==> P.MsgCommitted(c) in Notes(cfg, x, b)
  {
    assert Says(cfg, p, Done, x, b) == Notes(cfg, x, b);
  }

  lemma Disagree(cfg: P.Config, p: string, x: set<string>, y: set<string>, b1: RequestBatch, b2: RequestBatch, a: string, b: string)
      returns (t: Trace, s: P.System)
    requires Scene(cfg, p, x, b1) && Scene(cfg, p, y, b2) && p in cfg.faulty && b1 != b2 && a in cfg.replicas && b in cfg.replicas && a != b
    ensures Reaches(cfg, t, s) && s.sent == Talk(cfg, p, x, b1) + Talk(cfg, p, y, b2)
    ensures a in s.replicas && b in s.replicas && DeliveredOnly(s.replicas[a], b1) && DeliveredOnly(s.replicas[b], b2)
  {
    t, s := ThroughBoth(cfg, p, x, y, b1, b2);
    Announcements(cfg, p, x, b1);
    Announcements(cfg, p, y, b2);
    var ra: P.Replica, rb: P.Replica;
    t, ra := Deliver(cfg, t, s, a, x, b1);
    s := With(s, a, ra);
    t, rb := Deliver(cfg, t, s, b, y, b2);
    s := With(s, b, rb);
  }

  /** For every set of at least three replicas, every quorum of three or more and any two batches of this chain there is a
      run in which one replica, the primary, is faulty, no more replicas equivocate than the quorums must share, and two
      correct replicas deliver different batches at one seqNo. */
  lemma BoundIsSharp(replicas: set<string>, q: uint64, K: uint64, chain: string, b1: RequestBatch, b2: RequestBatch, p: string)
      returns (cfg: P.Config, run: seq<P.System>, es: seq<P.Event>, a: string, b: string)
    requires "" !in replicas && p in replicas && 3 <= q <= |replicas|
    requires b1 != b2 && LocalBatch(chain, b1) && LocalBatch(chain, b2)
    ensures cfg == P.Config(replicas, |replicas|, q, K, chain, {p}) && cfg.Valid() && P.IsRun(cfg, run, es)
    ensures |P.Equivocators(cfg, P.Final(run).sent)| == Overlap(|replicas|, q)
    ensures a != p && b != p
    ensures var s := P.Final(run);
            && a in s.replicas && b in s.replicas
            && D.Entry(1, Some(b1)) in s.replicas[a].log.out && D.Entry(1, Some(b2)) in s.replicas[b].log.out
  {
    cfg := P.Config(replicas, |replicas|, q, K, chain, {p});
    var x, y := LeastOverlap(replicas, q);
    assert |replicas - {p}| >= 2;
    a :| a in replicas - {p};
    assert |replicas - {p} - {a}| >= 1;
    b :| b in replicas - {p} - {a};
    var t, s := Disagree(cfg, p, x, y, b1, b2, a, b);
    run, es := InOrder(cfg, t);
    Announcements(cfg, p, x, b1);
    Announcements(cfg, p, y, b2);
    EquivocatorsAre(cfg, s.sent, x, y, b1, b2);
  }

  // ---------------------------------------------------------------- a batch submitted twice

  /** The primary after it proposed `b` under its first number. */
  ghost function Proposer(cfg: P.Config, p: string, x: set<string>, b: RequestBatch, r: P.Replica): P.Replica {
    r.(seqNo := 1, instances := r.instances[b.Key() := Inst(cfg, p, Prepare, x, b)])
  }

  lemma ProposeFirst(cfg: P.Config, sent: set<P.Msg>, p: string, x: set<string>, b: RequestBatch, r: P.Replica)
    requires Scene(cfg, p, x, b) && Ready(cfg, p, Start, x, b, sent, r) && r.seqNo == 0
    ensures P.ReplicaStep(cfg, p, sent, r, P.Propose(b), Proposer(cfg, p, x, b, r), {Proposal(cfg, p, b), Say(cfg, p, Prepare, p, b)})
  {
    assert r.pending + {} == r.pending;
    assert {Proposal(cfg, p, b)} + {Say(cfg, p, Prepare, p, b)} == {Proposal(cfg, p, b), Say(cfg, p, Prepare, p, b)};
  }

  /** A correct primary proposes `b`, and every other replica of `x` prepares it. */
  lemma Prepared(cfg: P.Config, p: string, x: set<string>, b: RequestBatch) returns (t: Trace, s: P.System)
    requires Scene(cfg, p, x, b) && p in x
    ensures Reaches(cfg, t, s) && p in s.replicas && s.replicas[p].seqNo == 1
    ensures Ready(cfg, p, Commit, x, b, s.sent, s.replicas[p])
  {
    var s0 := Begin(cfg, p);
    ProposeFirst(cfg, {}, p, x, b, s0.replicas[p]);
    var out := {Proposal(cfg, p, b), Say(cfg, p, Prepare, p, b)};
    var r1 := Proposer(cfg, p, x, b, s0.replicas[p]);
    var s1 := P.System(s0.replicas[p := r1], s0.sent + out);
    t := Extend(cfg, Begun(s0), s0, p, P.Propose(b), r1, out, s1);
    t := Round(cfg, t, s1, p, Prepare, x, b, x - {p});
    s := AfterAll(cfg, p, Prepare, x, b, s1, x - {p});
    SayAll(cfg, p, Prepare, x, b);
  }

  /** Submitting the batch of a prepared instance again renumbers it against its votes. */
  lemma SubmitAgain(cfg: P.Config, p: string, x: set<string>, b: RequestBatch, r: P.Replica)
    requires Scene(cfg, p, x, b) && r.seqNo == 1 && P.InstanceOf(r, b.Key()) == Inst(cfg, p, Commit, x, b)
    ensures P.StepBreaks(cfg, r, P.Propose(b))
  {
    NoOtherQuorum(cfg.chain, TargetOf(cfg.chain, 1, b), VotesOf(cfg, p, x, b), 2);
  }

  /** Without any faulty replica, for every set of replicas, every quorum from 3 on and every batch of this chain, there is
      a run in which the primary handles the batch twice and a certificate is lost. */
  lemma CertificateLost(replicas: set<string>, q: uint64, K: uint64, chain: string, b: RequestBatch, p: string)
      returns (cfg: P.Config, run: seq<P.System>, es: seq<P.Event>)
    requires "" !in replicas && p in replicas && 3 <= q <= |replicas| && LocalBatch(chain, b)
    ensures cfg == P.Config(replicas, |replicas|, q, K, chain, {}) && cfg.Valid() && P.IsRun(cfg, run, es)
    ensures !P.AlwaysCertified(cfg, run, p)
  {
    cfg := P.Config(replicas, |replicas|, q, K, chain, {});
    var others := SubsetOfSize(replicas - {p}, q - 1);
    var x := others + {p};
    assert |x| == q;
    var t, s := Prepared(cfg, p, x, b);
    t := CommitTurn(cfg, t, s, p, x, b, p);
    s := AfterOne(cfg, p, Commit, x, b, s, p);
    var r := s.replicas[p];
    SubmitAgain(cfg, p, x, b, r);
    run, es := TwiceRun(cfg, t, s, p, b);
    P.RunCertified(cfg, run, es, p);
  }

  /** The run that goes on with the second submission. */
  lemma TwiceRun(cfg: P.Config, t: Trace, s: P.System, p: string, b: RequestBatch) returns (run: seq<P.System>, es: seq<P.Event>)
    requires Reaches(cfg, t, s) && p in s.replicas && !s.replicas[p].stopped && s.replicas[p].primary == p
    requires P.StepBreaks(cfg, s.replicas[p], P.Propose(b))
    ensures P.IsRun(cfg, run, es) && !P.NeverBreaks(cfg, run, es, p)
  {
    var r, out := ProposeSome(cfg, s.sent, p, s.replicas[p], b);
    var s' := P.System(s.replicas[p := r], s.sent + out);
    var run0, es0 := InOrder(cfg, t);
    var t' := Extend(cfg, t, s, p, P.Propose(b), r, out, s');
    run, es := run0 + [s'], es0 + [P.Event(p, P.Propose(b))];
    forall j | 0 <= j < |es| ensures P.Next(cfg, run[j], es[j].id, es[j].step, run[j + 1]) {
      if j < |es0| { assert P.Next(cfg, run0[j], es0[j].id, es0[j].step, run0[j + 1]); }
    }
    var j := |es0|;
    assert es[j].id == p && run[j] == s && es[j].step == P.Propose(b);
  }

  /** The primary can always propose. */
  lemma ProposeSome(cfg: P.Config, sent: set<P.Msg>, p: string, r: P.Replica, b: RequestBatch) returns (r': P.Replica, out: set<P.Msg>)
    requires !r.stopped && r.primary == p
    ensures P.ReplicaStep(cfg, p, sent, r, P.Propose(b), r', out)
  {
    var name, n := b.Key(), Add64(r.seqNo, 1);
    var i := P.InstanceOf(r, name);
    var i' := OnPrePrepare(cfg.chain, OnRequestBatch(cfg.chain, i, n, b), n, b, true);
    r' := r.(seqNo := n, instances := r.instances[name := i'], pending := r.pending + P.AnnouncementOf(cfg, p, name, i, n));
    out := {P.MsgPrePrepare(PrePrepare(name, p, cfg.chain, p, n, b))}
           + if i.prePrepared then {} else {P.MsgPrepare(P.OwnVote(cfg, p, r, name, i'.target))};
  }
}
