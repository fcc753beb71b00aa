/** Voting for a new primary (sendViewChange, recvViewChange and newView of core/consensus/lbft/lbft.go).
    Recorded tickets are pointers whose SeqNo and Height are raised in place; the ballot key leaves both out. */
module Election {
  import opened Words
  import opened Messages
  import opened Votes

  class ViewChange {
    const replicaID: string
    const chain: string
    const primaryID: string
    const priority: int
    var seqNo: uint64
    var height: uint32

    constructor (replicaID: string, chain: string, priority: int, primaryID: string, seqNo: uint64, height: uint32)
      ensures this.replicaID == replicaID && this.chain == chain && this.primaryID == primaryID
      ensures this.seqNo == seqNo && this.height == height && this.priority == priority
    {
      this.replicaID, this.chain, this.priority, this.primaryID := replicaID, chain, priority, primaryID;
      this.seqNo, this.height := seqNo, height;
    }
  }

  /** The ticket key: ReplicaID, Priority, SeqNo, Height and OptHash are erased before hashing. */
  datatype TicketKey = TicketKey(chain: string, primaryID: string)

  function KeyOf(vc: ViewChange): TicketKey { TicketKey(vc.chain, vc.primaryID) }

  /** With at most N voters and 2Q > N at most one key reaches Q, so the winner does not depend on the map order. */
  lemma UniqueWinner<T, K>(tickets: map<string, T>, key: T -> K, n: int, q: int, k1: K, k2: K)
    requires |tickets| <= n && 2 * q > n
    requires |Supporters(tickets, key, k1)| >= q && |Supporters(tickets, key, k2)| >= q
    ensures k1 == k2
  {
    var a, b := Supporters(tickets, key, k1), Supporters(tickets, key, k2);
    QuorumIntersection(tickets.Keys, a, b, n, q);
    assert a * b != {};
    var w :| w in a * b;
  }

  /** What a recorded ticket currently says. */
  datatype Slip = Slip(primaryID: string, seqNo: uint64, height: uint32)

  /** Slips naming one primary agree on SeqNo and Height. */
  ghost predicate Shared(m: map<string, Slip>) {
    forall v, w {:trigger Agree(m, v, w)} | v in m && w in m :: Agree(m, v, w)
  }

  ghost predicate Agree(m: map<string, Slip>, v: string, w: string) {
    v in m && w in m && (m[v].primaryID == m[w].primaryID ==> m[v] == m[w])
  }

  /** No slip is below what its voter itself reported. */
  ghost predicate Reported(m: map<string, Slip>, reports: map<string, uint64>) {
    forall w | w in m :: w in reports && reports[w] <= m[w].seqNo
  }

  /** Every slip was sent as it stands. */
  ghost predicate Heard(m: map<string, Slip>, heard: set<Slip>) {
    forall w | w in m :: m[w] in heard
  }

  function Higher(a: Slip, b: Slip): Slip {
    if a.seqNo < b.seqNo then b else a
  }

  /** The slip that all tickets for the primary of `x` show after `x` has come in: the one already recorded
      for this primary if any, or `x` when `x` reports a larger SeqNo. */
  ghost function Top(m: map<string, Slip>, x: Slip): (t: Slip)
    ensures t.primaryID == x.primaryID && x.seqNo <= t.seqNo
    ensures Shared(m) ==> forall w | w in m && m[w].primaryID == x.primaryID :: t == Higher(m[w], x)
    ensures (forall w | w in m :: m[w].primaryID != x.primaryID) ==> t == x
  {
    if w :| w in m && m[w].primaryID == x.primaryID then
      assert forall v | v in m && Shared(m) :: Agree(m, v, w);
      Higher(m[w], x)
    else x
  }

  /** The ballot after `voter` sent `x`: a first ticket is recorded, and all slips for its primary are raised. */
  ghost function Counted(m: map<string, Slip>, voter: string, x: Slip): map<string, Slip> {
    var m' := Recorded(m, voter, x);
    map w | w in m' :: if m'[w].primaryID == x.primaryID then Top(m, x) else m'[w]
  }

  /** Raising in place keeps the invariants: slips naming one primary agree, none is below what its voter reported, and
      number and height come from one ticket. */
  lemma TallyKeeps(m: map<string, Slip>, reports: map<string, uint64>, heard: set<Slip>, voter: string, x: Slip)
    requires Shared(m) && Reported(m, reports) && Heard(m, heard)
    ensures Shared(Counted(m, voter, x)) && Heard(Counted(m, voter, x), heard + {x})
    ensures Reported(Counted(m, voter, x), if voter in m then reports else reports[voter := x.seqNo])
  {
    var m' := Counted(m, voter, x);
    forall v, w | v in m' && w in m' ensures Agree(m', v, w) {
      if v in m && w in m { assert Agree(m, v, w); }
    }
  }

  /** A view installed by a quorum: who voted for it, what each of them reported, and the tickets sent in the ballot. */
  datatype View = View(slip: Slip, voters: set<string>, reports: map<string, uint64>, heard: set<Slip>)

  /** At least `q` voters named this primary, none of them reported a larger SeqNo, and SeqNo and Height were sent together. */
  ghost predicate Backed(v: View, q: nat) {
    |v.voters| >= q && v.slip in v.heard && forall w | w in v.voters :: w in v.reports && v.reports[w] <= v.slip.seqNo
  }

  /** The numbers and instances a view works with; `gate` is where both sequencing gates start. */
  datatype Progress = Progress(lastSeqNo: uint64, lastHeight: uint32, seqNo: uint64, height: uint32, verifySeqNo: uint64,
                               gate: uint64, votedCnt: nat, concurrentCntTo: nat, instances: set<Name>)

  /** The numbers given out since the counter stood at `start`. */
  ghost predicate Numbers(start: uint64, given: seq<uint64>) {
    forall k | 0 <= k < |given| :: given[k] == (start + k + 1) % TWO_64
  }

  /** All of them are above `start` exactly while the counter has not wrapped; then they are the next ones in order. */
  lemma NumbersAbove(start: uint64, given: seq<uint64>)
    requires Numbers(start, given)
    ensures (forall k | 0 <= k < |given| :: given[k] > start) <==> start + |given| < TWO_64
    ensures start + |given| < TWO_64 ==> forall k | 0 <= k < |given| :: given[k] == start + k + 1
  {
    if start + |given| >= TWO_64 {
      var k := TWO_64 - start - 1;
      assert given[k] == TWO_64 % TWO_64 == 0;
    }
  }

  /** What a view works with, and the views installed so far: `start` is where its counter stood, `given` what it gave out. */
  datatype Standing = Standing(progress: Progress, start: uint64, given: seq<uint64>, installed: seq<View>)

  /** The numbers of a view that has just begun at `id`: all of them, and both gates, are what its ticket says, so none of
      them is below what a voter of the quorum reported, and a new primary has given out exactly the next number. */
  ghost predicate Begun(id: string, v: View, s: Standing) {
    && s.progress.lastSeqNo == v.slip.seqNo && s.progress.verifySeqNo == v.slip.seqNo && s.progress.gate == v.slip.seqNo
    && s.progress.lastHeight == v.slip.height && s.start == v.slip.seqNo
    && s.given == (if v.slip.primaryID == id then [Add64(v.slip.seqNo, 1)] else [])
    && forall w | w in v.voters ::
         w in v.reports && v.reports[w] <= s.progress.lastSeqNo && v.reports[w] <= s.progress.gate
  }

  /** At most one view is appended; without a new one the numbers stay, up to the instances given up with the primary. */
  ghost predicate History(id: string, a: Standing, b: Standing) {
    && a.installed <= b.installed
    && (b.installed == a.installed ==> b == a.(progress := a.progress.(instances := b.progress.instances)))
    && (b.installed != a.installed ==> |b.installed| == |a.installed| + 1 && Begun(id, b.installed[|a.installed|], b))
  }

  /** Views are only appended, and the numbers are those of the last one if there is a new one. */
  ghost predicate Grown(id: string, before: seq<View>, b: Standing) {
    before <= b.installed && (b.installed != before ==> Begun(id, b.installed[|b.installed| - 1], b))
  }

  lemma GrownOn(id: string, before: seq<View>, a: Standing, b: Standing)
    requires Grown(id, before, a) && History(id, a, b)
    ensures Grown(id, before, b)
  {
  }

  class Elector {
    const id: string
    const chain: string
    const quorum: nat
    const vote: Vote<ViewChange, TicketKey>
    var priority: int
    var primaryID: string
    var lastPrimaryID: string
    var progress: Progress
    /** What each recorded voter itself reported. */
    ghost var reports: map<string, uint64>
    /** The views installed by a quorum of tickets so far. */
    ghost var installed: seq<View>
    /** The tickets sent in the current ballot. */
    ghost var heard: set<Slip>
    /** Where the counter stood when the view began, and the numbers given since. */
    ghost var viewStart: uint64
    ghost var given: seq<uint64>

    ghost function Stand(): Standing
      reads this
    {
      Standing(progress, viewStart, given, installed)
    }

    ghost function Tickets(): set<ViewChange>
      reads this, vote
    {
      set w | w in vote.tickets :: vote.tickets[w]
    }

    ghost function Slips(): map<string, Slip>
      reads this, vote, Tickets()
    {
      map w | w in vote.tickets :: Slip(vote.tickets[w].primaryID, vote.tickets[w].seqNo, vote.tickets[w].height)
    }

    /** Tickets are filed under their sender and belong to this chain. */
    ghost predicate Filed()
      reads this, vote
    {
      vote.key == KeyOf && forall w | w in vote.tickets :: vote.tickets[w].replicaID == w && vote.tickets[w].chain == chain
    }

    /** The batches submitted in this view carry the numbers behind its start, in order. */
    ghost predicate Numbered()
      reads this
    {
      Numbers(viewStart, given) && progress.seqNo == (viewStart + |given|) % TWO_64
    }

    /** The ballot counts its voters, slips naming one primary agree, were sent and cover their voters' reports, and every
        view installed so far was backed by a quorum. */
    ghost predicate Valid()
      reads this, vote, Tickets()
    {
      && vote.Valid() && Filed() && Numbered()
      && Shared(Slips()) && Reported(Slips(), reports) && Heard(Slips(), heard)
      && (forall v | v in installed :: Backed(v, quorum))
    }

    constructor (id: string, chain: string, quorum: nat, priority: int, progress: Progress)
      ensures Valid() && fresh(vote) && vote.tickets == map[] && installed == []
      ensures this.id == id && this.chain == chain && this.quorum == quorum && primaryID == ""
      ensures this.progress == progress && given == [] && viewStart == progress.seqNo
    {
      this.id, this.chain, this.quorum, this.priority := id, chain, quorum, priority;
      this.progress := progress;
      primaryID, lastPrimaryID := "", "";
      vote := new Vote(KeyOf);
      reports, installed, heard := map[], [], {};
      viewStart, given := progress.seqNo, [];
    }

    /** The raising loop of recvViewChange, given that the tickets naming this primary agree on `s`. Whatever the order
        of the map, they and the new ticket end at the higher of the two; no other ticket changes. */
    method Raise(vc: ViewChange, ghost s: Slip)
      requires Filed() && s.primaryID == vc.primaryID
      requires forall w | w in vote.tickets && Other(vc, vote.tickets[w]) ::
                 vote.tickets[w].seqNo == s.seqNo && vote.tickets[w].height == s.height
      requires (forall w | w in vote.tickets :: !Other(vc, vote.tickets[w])) ==>
                 s == Slip(vc.primaryID, vc.seqNo, vc.height)
      modifies vc`seqNo, vc`height, Tickets()`seqNo, Tickets()`height
      ensures var top := Higher(s, Slip(vc.primaryID, old(vc.seqNo), old(vc.height)));
              && vc.seqNo == top.seqNo && vc.height == top.height
              && forall w | w in vote.tickets && Other(vc, vote.tickets[w]) ::
                   vote.tickets[w].seqNo == top.seqNo && vote.tickets[w].height == top.height
      ensures forall w | w in vote.tickets && vote.tickets[w].primaryID != vc.primaryID ::
                vote.tickets[w].seqNo == old(vote.tickets[w].seqNo) && vote.tickets[w].height == old(vote.tickets[w].height)
    {
      ghost var s0, h0 := vc.seqNo, vc.height;
      ghost var top := Higher(s, Slip(vc.primaryID, s0, h0));
      var left := vote.tickets.Keys;
      while left != {}
        modifies vc`seqNo, vc`height, Tickets()`seqNo, Tickets()`height
        invariant left <= vote.tickets.Keys
        invariant forall w | w in vote.tickets && vote.tickets[w].primaryID != vc.primaryID ::
                    vote.tickets[w].seqNo == old(vote.tickets[w].seqNo) && vote.tickets[w].height == old(vote.tickets[w].height)
        invariant forall w | w in left && Other(vc, vote.tickets[w]) ::
                    vote.tickets[w].seqNo == s.seqNo && vote.tickets[w].height == s.height
        invariant forall w | w in vote.tickets && w !in left && Other(vc, vote.tickets[w]) ::
                    && vote.tickets[w].seqNo == top.seqNo && vote.tickets[w].height == top.height
                    && vc.seqNo == top.seqNo && vc.height == top.height
        invariant (vc.seqNo == s0 && vc.height == h0) || (vc.seqNo == top.seqNo && vc.height == top.height)
        invariant (forall w | w in vote.tickets && w !in left :: !Other(vc, vote.tickets[w])) ==> vc.seqNo == s0 && vc.height == h0
        decreases left
      {
        var w :| w in left;
        var tvc := vote.tickets[w];
        if tvc.primaryID == vc.primaryID {
          if tvc.seqNo < vc.seqNo {
            tvc.seqNo, tvc.height := vc.seqNo, vc.height;
          } else {
            vc.seqNo, vc.height := tvc.seqNo, tvc.height;
          }
        }
        left := left - {w};
      }
    }

    static ghost predicate Other(vc: ViewChange, t: ViewChange) {
      t != vc && t.primaryID == vc.primaryID
    }

    /** voteViewChange.Add. */
    method Record(vc: ViewChange)
      requires vote.Valid() && Filed() && vc.chain == chain
      modifies vote`tickets, vote`hashes, vote`statistics, this`reports
      ensures vote.Valid() && Filed() && vote.tickets == Recorded(old(vote.tickets), vc.replicaID, vc)
      ensures reports == if vc.replicaID in old(vote.tickets) then old(reports) else old(reports)[vc.replicaID := vc.seqNo]
    {
      if vc.replicaID !in vote.tickets {
        reports := reports[vc.replicaID := vc.seqNo];
      }
      vote.Add(vc.replicaID, vc);
    }

    /** voteViewChange.Add and the raising loop. */
    method Tally(vc: ViewChange)
      requires vote.Valid() && Filed() && Shared(Slips()) && vc.chain == chain && vc !in Tickets()
      modifies vote`tickets, vote`hashes, vote`statistics, this`reports, vc`seqNo, vc`height, Tickets()`seqNo, Tickets()`height
      ensures vote.Valid() && Filed() && vote.tickets == Recorded(old(vote.tickets), vc.replicaID, vc)
      ensures reports == if vc.replicaID in old(vote.tickets) then old(reports) else old(reports)[vc.replicaID := old(vc.seqNo)]
      ensures Slips() == Counted(old(Slips()), vc.replicaID, old(Slip(vc.primaryID, vc.seqNo, vc.height)))
    {
      ghost var tickets, m, x := vote.tickets, Slips(), Slip(vc.primaryID, vc.seqNo, vc.height);
      ghost var s := AgreedOn(m, x);
      assert forall w | w in tickets :: tickets[w] in Tickets();
      Record(vc);
      RaiseRecorded(vc, tickets, m, s);
    }

    /** The slip recorded for the primary of `x`, or `x` itself. */
    ghost function AgreedOn(m: map<string, Slip>, x: Slip): (s: Slip)
      ensures s.primaryID == x.primaryID
      ensures Shared(m) ==> forall w | w in m && m[w].primaryID == x.primaryID :: m[w] == s
      ensures (forall w | w in m :: m[w].primaryID != x.primaryID) ==> s == x
      ensures Shared(m) ==> Top(m, x) == Higher(s, x)
    {
      if w :| w in m && m[w].primaryID == x.primaryID then
        assert forall v | v in m && Shared(m) :: Agree(m, v, w);
        m[w]
      else x
    }

    method RaiseRecorded(vc: ViewChange, ghost tickets: map<string, ViewChange>, ghost m: map<string, Slip>, ghost s: Slip)
      requires Filed() && vote.tickets == Recorded(tickets, vc.replicaID, vc) && m.Keys == tickets.Keys
      requires forall w | w in tickets :: tickets[w] != vc && m[w] == Slip(tickets[w].primaryID, tickets[w].seqNo, tickets[w].height)
      requires forall w | w in m && m[w].primaryID == vc.primaryID :: m[w] == s
      requires s.primaryID == vc.primaryID
      requires (forall w | w in m :: m[w].primaryID != vc.primaryID) ==> s == Slip(vc.primaryID, vc.seqNo, vc.height)
      requires var x := Slip(vc.primaryID, vc.seqNo, vc.height); Top(m, x) == Higher(s, x)
      modifies vc`seqNo, vc`height, Tickets()`seqNo, Tickets()`height
      ensures Slips() == Counted(m, vc.replicaID, Slip(vc.primaryID, old(vc.seqNo), old(vc.height)))
    {
      ghost var x := Slip(vc.primaryID, vc.seqNo, vc.height);
      assert forall w | w in vote.tickets && Other(vc, vote.tickets[w]) :: w in tickets && vote.tickets[w] == tickets[w];
      assert forall w | w in tickets :: w in vote.tickets && vote.tickets[w] == tickets[w];
      Raise(vc, s);
      RaisedIsCounted(m, s, x, vc.replicaID);
    }

    /** Every recorded ticket shows the higher of `s` and `x` if it names the primary of `x`, and its slip of `m` if not. */
    ghost predicate Raised(m: map<string, Slip>, s: Slip, x: Slip)
      reads this, vote, Tickets()
    {
      forall w | w in vote.tickets ::
        if vote.tickets[w].primaryID == x.primaryID
        then vote.tickets[w].seqNo == Higher(s, x).seqNo && vote.tickets[w].height == Higher(s, x).height
        else w in m && Slip(vote.tickets[w].primaryID, vote.tickets[w].seqNo, vote.tickets[w].height) == m[w]
    }

    lemma RaisedIsCounted(m: map<string, Slip>, s: Slip, x: Slip, voter: string)
      requires Raised(m, s, x) && vote.tickets.Keys == m.Keys + {voter} && s.primaryID == x.primaryID
      requires forall w | w in m :: m[w].primaryID == vote.tickets[w].primaryID
      requires voter !in m ==> vote.tickets[voter].primaryID == x.primaryID
      requires Top(m, x) == Higher(s, x)
      ensures Slips() == Counted(m, voter, x)
    {
      var slips, c := Slips(), Counted(m, voter, x);
      forall w | w in slips ensures w in c && slips[w] == c[w] {
        assert Recorded(m, voter, x)[w].primaryID == vote.tickets[w].primaryID;
      }
    }

    /** handleRequestBatch: the next number goes to the batch, which gets its instance. */
    method SubmitBatch(b: RequestBatch) returns (number: uint64)
      requires Numbered()
      modifies `progress, `given
      ensures Numbered() && given == old(given) + [number] && number == Add64(old(progress.seqNo), 1)
      ensures progress == old(progress).(seqNo := number, instances := old(progress.instances) + {b.Key()})
    {
      number := Add64(progress.seqNo, 1);
      progress := progress.(seqNo := number, instances := progress.instances + {b.Key()});
      given := given + [number];
    }

    /** newView: the ballot is cleared; a primary that is already known changes nothing else. A new one starts all numbers
        and both gates at those of its ticket, without instances; the primary itself submits at once the batch that closes
        a block, under the next number and height. */
    method NewView(vc: ViewChange, now: uint32)
      modifies vote`tickets, vote`hashes, vote`statistics, `primaryID, `lastPrimaryID, `progress, `heard, `viewStart, `given
      ensures vote.Valid() && vote.tickets == map[] && primaryID == vc.primaryID
      ensures old(primaryID) == vc.primaryID ==>
                lastPrimaryID == old(lastPrimaryID) && progress == old(progress) && viewStart == old(viewStart) && given == old(given)
      ensures old(primaryID) != vc.primaryID ==>
                && lastPrimaryID == vc.primaryID && Numbered() && viewStart == vc.seqNo
                && progress.lastSeqNo == vc.seqNo && progress.verifySeqNo == vc.seqNo && progress.gate == vc.seqNo
                && progress.lastHeight == vc.height && progress.votedCnt == 0 && progress.concurrentCntTo == 0
      ensures old(primaryID) != vc.primaryID && vc.primaryID != id ==>
                progress.seqNo == vc.seqNo && progress.height == vc.height && progress.instances == {} && given == []
      ensures old(primaryID) != vc.primaryID && vc.primaryID == id ==>
                && progress.height == Inc32(vc.height) && given == [Add64(vc.seqNo, 1)]
                && progress.instances == {RequestBatch(now, [], EMPTY_BLOCK, 0, Inc32(vc.height)).Key()}
    {
      vote.Clear();
      heard := {};
      if primaryID == vc.primaryID {
        return;
      }
      primaryID := vc.primaryID;
      lastPrimaryID := primaryID;
      progress := Progress(vc.seqNo, vc.height, vc.seqNo, vc.height, vc.seqNo, vc.seqNo, 0, 0, {});
      viewStart, given := vc.seqNo, [];
      if primaryID == id {
        progress := progress.(height := Inc32(progress.height));
        var number := SubmitBatch(RequestBatch(now, [], EMPTY_BLOCK, 0, progress.height));
      }
    }

    /** The view of a ticket that reached the quorum. */
    method Install(vc: ViewChange, now: uint32)
      requires Valid() && Cast(vote.tickets, vc) && |Supporters(vote.tickets, KeyOf, KeyOf(vc))| >= quorum
      modifies vote`tickets, vote`hashes, vote`statistics, `primaryID, `lastPrimaryID, `progress, `installed, `heard, `viewStart, `given
      ensures Valid() && vote.tickets == map[] && primaryID == vc.primaryID
      ensures History(id, old(Stand()), Stand())
      ensures old(primaryID) != vc.primaryID ==> installed != old(installed)
    {
      if primaryID != vc.primaryID {
        ghost var voters := Supporters(vote.tickets, KeyOf, KeyOf(vc));
        WinnerCovers(vc);
        installed := installed + [View(Slip(vc.primaryID, vc.seqNo, vc.height), voters, reports, heard)];
      }
      NewView(vc, now);
      assert Slips() == map[];
    }

    /** The end of recvViewChange: a ticket that reached the quorum installs its view. While there are fewer than 2Q voters
        only one primary can be named by a quorum, so the choice does not depend on the order of the map. */
    method Decide(now: uint32)
      requires Valid()
      modifies vote`tickets, vote`hashes, vote`statistics, `primaryID, `lastPrimaryID, `progress, `installed, `heard, `viewStart, `given
      ensures Valid() && Tickets() <= old(Tickets())
      ensures History(id, old(Stand()), Stand())
      ensures vote.tickets != map[] ==> Slips() == old(Slips())
      ensures Decided(old(vote.tickets), old(primaryID), vote.tickets, primaryID)
    {
      ghost var tickets, m := vote.tickets, Slips();
      var n, ticket := vote.Voter();
      assert Slips() == m;
      if n >= quorum && ticket.Some? {
        assert Elected(tickets, ticket.value.primaryID);
        Install(ticket.value, now);
        OnlyWinner(tickets, ticket.value.primaryID);
      }
    }

    /** A ballot with a winner is cleared and makes it the primary, the only one if there are fewer than 2Q voters; another
        one stays. */
    ghost predicate Decided(tickets: map<string, ViewChange>, primary: string, after: map<string, ViewChange>, elected: string) {
      if Won(tickets) then
        && after == map[] && Elected(tickets, elected)
        && (|tickets| < 2 * quorum ==> forall p | Elected(tickets, p) :: p == elected)
      else after == tickets && elected == primary
    }

    lemma OnlyWinner(tickets: map<string, ViewChange>, primary: string)
      requires Elected(tickets, primary)
      ensures |tickets| < 2 * quorum ==> forall p | Elected(tickets, p) :: p == primary
    {
      if |tickets| < 2 * quorum {
        forall p | Elected(tickets, p) ensures p == primary {
          UniqueWinner(tickets, KeyOf, |tickets|, quorum, TicketKey(chain, p), TicketKey(chain, primary));
        }
      }
    }

    ghost predicate Elected(tickets: map<string, ViewChange>, primary: string) {
      |Supporters(tickets, KeyOf, TicketKey(chain, primary))| >= quorum
    }

    /** Some primary is named by a quorum. */
    ghost predicate Won(tickets: map<string, ViewChange>) {
      tickets != map[] && exists p :: Elected(tickets, p)
    }

    /** The supporters of a recorded ticket reported at most its SeqNo. */
    lemma WinnerCovers(vc: ViewChange)
      requires Valid() && Cast(vote.tickets, vc)
      ensures forall w | w in Supporters(vote.tickets, KeyOf, KeyOf(vc)) :: w in reports && reports[w] <= vc.seqNo
      ensures Slip(vc.primaryID, vc.seqNo, vc.height) in heard
    {
      var m := Slips();
      var v :| v in vote.tickets && vote.tickets[v] == vc;
      assert m[v] in heard;
      forall w | w in Supporters(vote.tickets, KeyOf, KeyOf(vc)) ensures w in reports && reports[w] <= vc.seqNo {
        assert KeyOf(vote.tickets[w]) == KeyOf(vc);
        assert Agree(m, v, w);
        assert m[w].seqNo == vc.seqNo && w in m;
      }
    }

    /** The primary itself asks to be elected again, which starts a ballot. */
    predicate Provoked(vc: ViewChange)
      reads this
    {
      id != vc.replicaID && vc.replicaID == primaryID && vc.primaryID == primaryID
    }

    /** The ballot and the primary after `vc` was counted in `tickets` with the primary `primary`. */
    ghost predicate Outcome(tickets: map<string, ViewChange>, primary: string, vc: ViewChange,
                            after: map<string, ViewChange>, elected: string) {
      var t := Recorded(tickets, vc.replicaID, vc);
      Decided(t, if |t| == quorum != 1 then "" else primary, after, elected)
    }

    /** recvViewChange: the ballot invariant holds after any sequence of calls, in particular every installed view has a
        quorum of voters whose own reports it covers. The ticket is counted in the ballot `mid` with the primary `primary`:
        those of before, unless the primary itself asked for an election; then it is given up and the own vote, if not
        yet cast, counted first. */
    method RecvViewChange(vc: ViewChange, now: uint32)
      returns (ghost mid: map<string, ViewChange>, ghost primary: string, ghost own: Option<ViewChange>)
      requires Valid() && vc !in Tickets()
      modifies vote`tickets, vote`hashes, vote`statistics, this, vc`seqNo, vc`height, Tickets()`seqNo, Tickets()`height
      ensures Valid()
      ensures forall t | t in Tickets() :: t in old(Tickets()) || t == vc || fresh(t)
      ensures vc.chain != chain ==> vote.tickets == old(vote.tickets) && primaryID == old(primaryID) && progress == old(progress)
      ensures vc.chain == chain ==> Outcome(mid, primary, vc, vote.tickets, primaryID)
      ensures vc.replicaID == id || vc.replicaID != old(primaryID) || vc.primaryID != old(primaryID) ==>
                mid == old(vote.tickets) && primary == old(primaryID)
      ensures vc.chain == chain && vc.replicaID != id && vc.replicaID == vc.primaryID == old(primaryID) ==>
                Sent(old(vote.tickets), "", None, own, mid, primary)
      ensures Grown(id, old(installed), Stand())
      ensures vc.chain == chain && !old(Provoked(vc)) ==>
                && reports == (if vc.replicaID in old(vote.tickets) then old(reports) else old(reports)[vc.replicaID := old(vc.seqNo)])
                && (vote.tickets != map[] ==>
                      Slips() == Counted(old(Slips()), vc.replicaID, old(Slip(vc.primaryID, vc.seqNo, vc.height))))
      decreases if vc.replicaID == id then 0 else 3
    {
      mid, primary, own := vote.tickets, primaryID, None;
      if vc.chain != chain {
        return;
      }
      if Provoked(vc) {
        own := GiveUp(now);
        mid, primary := vote.tickets, primaryID;
      }
      ghost var before := Stand();
      Receive(vc, now);
      GrownOn(id, old(installed), before, Stand());
    }

    /** The primary asked to be elected again: it is given up, and this replica votes for itself. */
    method GiveUp(now: uint32) returns (ghost own: Option<ViewChange>)
      requires Valid()
      modifies vote`tickets, vote`hashes, vote`statistics, this, Tickets()`seqNo, Tickets()`height
      ensures Valid() && Grown(id, old(installed), Stand())
      ensures forall t | t in Tickets() :: t in old(Tickets()) || fresh(t)
      ensures Sent(old(vote.tickets), "", None, own, vote.tickets, primaryID)
      decreases 2
    {
      ghost var m := Slips();
      primaryID := "";
      assert Slips() == m;
      own := SendViewChange(None, now);
    }

    /** What sendViewChange makes of a ballot: nothing when this replica has voted, and otherwise it counts the own ticket. */
    ghost predicate Sent(tickets: map<string, ViewChange>, primary: string, proposal: Option<Slip>, own: Option<ViewChange>,
                         after: map<string, ViewChange>, elected: string) {
      if id in tickets then after == tickets && elected == primary
      else
        && own.Some? && own.value.replicaID == id && own.value.chain == chain
        && own.value.primaryID == (if proposal.Some? then proposal.value.primaryID else id)
        && Outcome(tickets, primary, own.value, after, elected)
    }

    /** This replica cast `x`: its report is recorded, and the ballot, if it goes on, counts it. */
    ghost predicate Voted(before: map<string, uint64>, slips: map<string, Slip>, x: Slip)
      reads this, vote, Tickets()
    {
      reports == before[id := x.seqNo] && (vote.tickets != map[] ==> Slips() == Counted(slips, id, x))
    }

    /** A ticket of this chain is counted, and the ballot decided. */
    method Receive(vc: ViewChange, now: uint32)
      requires Valid() && vc.chain == chain && vc !in Tickets()
      modifies vote`tickets, vote`hashes, vote`statistics, `reports, `heard, `primaryID, `lastPrimaryID, `progress,
               `installed, `viewStart, `given, vc`seqNo, vc`height, Tickets()`seqNo, Tickets()`height
      ensures Valid() && Outcome(old(vote.tickets), old(primaryID), vc, vote.tickets, primaryID)
      ensures History(id, old(Stand()), Stand())
      ensures reports == if vc.replicaID in old(vote.tickets) then old(reports) else old(reports)[vc.replicaID := old(vc.seqNo)]
      ensures vote.tickets != map[] ==> Slips() == Counted(old(Slips()), vc.replicaID, old(Slip(vc.primaryID, vc.seqNo, vc.height)))
      ensures forall t | t in Tickets() :: t in old(Tickets()) || t == vc
    {
      Count(vc);
      Decide(now);
    }

    /** Add, the raising loop and what happens when the ballot reaches the quorum size. */
    method Count(vc: ViewChange)
      requires Valid() && vc.chain == chain && vc !in Tickets()
      modifies vote`tickets, vote`hashes, vote`statistics, `reports, `heard, `primaryID, `lastPrimaryID, `progress,
               vc`seqNo, vc`height, Tickets()`seqNo, Tickets()`height
      ensures Valid() && vote.tickets == Recorded(old(vote.tickets), vc.replicaID, vc)
      ensures reports == if vc.replicaID in old(vote.tickets) then old(reports) else old(reports)[vc.replicaID := old(vc.seqNo)]
      ensures Slips() == Counted(old(Slips()), vc.replicaID, old(Slip(vc.primaryID, vc.seqNo, vc.height)))
      ensures forall t | t in Tickets() :: t in old(Tickets()) || t == vc
      ensures primaryID == if |vote.tickets| == quorum != 1 then "" else old(primaryID)
      ensures progress == if |vote.tickets| == quorum != 1 then old(progress).(instances := {}) else old(progress)
    {
      Gather(vc);
      StepDown();
    }

    /** Add and the raising loop keep the ballot invariant. */
    method Gather(vc: ViewChange)
      requires Valid() && vc.chain == chain && vc !in Tickets()
      modifies vote`tickets, vote`hashes, vote`statistics, `reports, `heard, vc`seqNo, vc`height, Tickets()`seqNo, Tickets()`height
      ensures Valid() && vote.tickets == Recorded(old(vote.tickets), vc.replicaID, vc)
      ensures reports == if vc.replicaID in old(vote.tickets) then old(reports) else old(reports)[vc.replicaID := old(vc.seqNo)]
      ensures Slips() == Counted(old(Slips()), vc.replicaID, old(Slip(vc.primaryID, vc.seqNo, vc.height)))
    {
      ghost var m, x, r := Slips(), Slip(vc.primaryID, vc.seqNo, vc.height), reports;
      TallyKeeps(m, r, heard, vc.replicaID, x);
      heard := heard + {x};
      assert Slips() == m;
      Tally(vc);
    }

    /** When the ballot has exactly Q tickets the current primary is given up and all instances are stopped; a single ticket
        only starts a timer. */
    method StepDown()
      requires Valid()
      modifies `primaryID, `lastPrimaryID, `progress
      ensures Valid() && Slips() == old(Slips())
      ensures primaryID == if |vote.tickets| == quorum != 1 then "" else old(primaryID)
      ensures progress == if |vote.tickets| == quorum != 1 then old(progress).(instances := {}) else old(progress)
      ensures lastPrimaryID == if |vote.tickets| == quorum != 1 && old(primaryID) != "" then old(primaryID) else old(lastPrimaryID)
    {
      ghost var m := Slips();
      var cnt := vote.Size();
      if cnt != 1 && cnt == quorum {
        if primaryID != "" {
          lastPrimaryID := primaryID;
          primaryID := "";
        }
        progress := progress.(instances := {});
      }
      assert Slips() == m;
    }

    /** sendViewChange: vote once per ballot, for the ticket `proposal` of the last ballot as it stands, or for itself with
        its own last number and height; the own ticket is counted like any other. */
    method SendViewChange(proposal: Option<Slip>, now: uint32) returns (ghost own: Option<ViewChange>)
      requires Valid()
      modifies vote`tickets, vote`hashes, vote`statistics, this, Tickets()`seqNo, Tickets()`height
      ensures Valid()
      ensures forall t | t in Tickets() :: t in old(Tickets()) || fresh(t)
      ensures Sent(old(vote.tickets), old(primaryID), proposal, own, vote.tickets, primaryID)
      ensures id in old(vote.tickets) ==> progress == old(progress)
      ensures Grown(id, old(installed), Stand())
      ensures id !in old(vote.tickets) && (proposal == None || proposal.value.primaryID == id) ==>
                Voted(old(reports), old(Slips()), Slip(id, old(progress.lastSeqNo), old(progress.lastHeight)))
      ensures id !in old(vote.tickets) && proposal.Some? && proposal.value.primaryID != id ==>
                Voted(old(reports), old(Slips()), proposal.value)
      decreases 1
    {
      own := None;
      ghost var m := Slips();
      var n, mine := vote.VoterByVoter(id);
      assert Slips() == m;
      if n > 0 {
        return;
      }
      var slip := Slip(id, progress.lastSeqNo, progress.lastHeight);
      if proposal.Some? && proposal.value.primaryID != id {
        slip := proposal.value;
      }
      var vc := new ViewChange(id, chain, priority, slip.primaryID, slip.seqNo, slip.height);
      assert Slips() == m;
      own := Some(vc);
      ghost var mid, primary, none := RecvViewChange(vc, now);
    }
  }
}
