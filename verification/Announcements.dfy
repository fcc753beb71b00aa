/** Counting the committed announcements (recvCommitted of core/consensus/lbft/lbft.go): one vote object per instance
    name, and a batch is passed on when a quorum announced it. */
module Announcements {
  import opened Words
  import opened Messages
  import opened Votes

  type Tally = map<string, Committed>

  /** A ticket really cast that nobody outvotes. */
  ghost predicate Leads(t: Tally, ticket: Committed) {
    && Cast(t, ticket)
    && forall k {:trigger Supporters(t, CommittedKey, k)} ::
         |Supporters(t, CommittedKey, k)| <= |Supporters(t, CommittedKey, CommittedKey(ticket))|
  }

  /** A leading ticket is already executed, or is still to come; with a tie both can hold. */
  ghost predicate Behind(t: Tally, exec: uint64) {
    exists c :: Leads(t, c) && c.seqNo <= exec
  }

  ghost predicate Ahead(t: Tally, exec: uint64) {
    exists c :: Leads(t, c) && c.seqNo > exec
  }

  ghost predicate Judged(t: Tally, exec: uint64, keep: bool) {
    if keep then Ahead(t, exec) else Behind(t, exec)
  }

  /** The tallies left after cleaning: not the one of this name, and of the others none that is behind. */
  ghost predicate Cleaned(before: map<Name, Tally>, after: map<Name, Tally>, name: Name, exec: uint64) {
    && after.Keys <= before.Keys - {name}
    && (forall n <- after :: after[n] == before[n])
    && (forall n <- before :: n != name ==> Judged(before[n], exec, n in after))
  }

  function TallyIn(tallies: map<Name, Tally>, name: Name): Tally {
    if name in tallies then tallies[name] else map[]
  }

  /** What recvCommitted makes of the tallies: a late announcement only cleans up; otherwise it is counted, and the tally is
      closed when a quorum announced the same batch. */
  ghost predicate Received(q: uint64, before: map<Name, Tally>, ct: Committed, late: bool, exec: uint64,
                           after: map<Name, Tally>, passed: bool) {
    if late then !passed && Cleaned(before, after, ct.name, exec)
    else
      var t := Recorded(TallyIn(before, ct.name), ct.replicaID, ct);
      && (passed <==> |Supporters(t, CommittedKey, CommittedKey(ct))| >= q)
      && after.Keys == (if passed then before.Keys - {ct.name} else before.Keys + {ct.name})
      && forall n <- after :: after[n] == if n == ct.name then t else before[n]
  }

  /** The ticket is recorded, and then the tally closed or not. */
  lemma ReceivedInSteps(q: uint64, before: map<Name, Tally>, ct: Committed, after: map<Name, Tally>, passed: bool)
    requires var mid := before[ct.name := Recorded(TallyIn(before, ct.name), ct.replicaID, ct)];
             && (passed <==> |Supporters(mid[ct.name], CommittedKey, CommittedKey(ct))| >= q)
             && after.Keys == (if passed then mid.Keys - {ct.name} else mid.Keys)
             && forall n <- after :: after[n] == mid[n]
    ensures Received(q, before, ct, false, 0, after, passed)
  {
  }

  /** All tallies but those of `left` are judged, and kept accordingly. */
  ghost predicate JudgedBut(tallies: map<Name, Tally>, name: Name, exec: uint64, left: set<Name>, kept: set<Name>) {
    forall n <- tallies :: n != name && n !in left ==> Judged(tallies[n], exec, n in kept)
  }

  lemma JudgedOne(tallies: map<Name, Tally>, name: Name, exec: uint64, left: set<Name>, kept: set<Name>, n: Name, behind: bool)
    requires JudgedBut(tallies, name, exec, left, kept) && n in left && n in kept && n in tallies && Judged(tallies[n], exec, !behind)
    ensures JudgedBut(tallies, name, exec, left - {n}, if behind then kept - {n} else kept)
  {
  }

  type Ballot = Vote<Committed, Committed>

  /** The object counts its tickets and holds at least one. */
  ghost predicate Good(v: Ballot)
    reads v
  {
    v.Valid() && v.key == CommittedKey && v.tickets != map[]
  }

  class CommittedVotes {
    const quorum: uint64
    var voteCommitted: map<Name, Ballot>
    /** The tickets in each vote object. */
    ghost var tallies: map<Name, Tally>

    /** One vote object per name, all of them good. */
    ghost predicate Valid()
      reads this, voteCommitted.Values
    {
      && voteCommitted.Keys == tallies.Keys
      && (forall n <- voteCommitted :: Good(voteCommitted[n]) && voteCommitted[n].tickets == tallies[n])
      && (forall n, m :: n in voteCommitted && m in voteCommitted && n != m ==> voteCommitted[n] != voteCommitted[m])
    }

    constructor (quorum: uint64)
      ensures Valid() && tallies == map[] && this.quorum == quorum
    {
      this.quorum, voteCommitted, tallies := quorum, map[], map[];
    }

    static method IsBehind(v: Ballot, ghost t: Tally, exec: uint64) returns (behind: bool)
      requires Good(v) && v.tickets == t
      ensures Judged(t, exec, !behind)
    {
      var n, ticket := v.Voter();
      assert Leads(t, ticket.value);
      behind := ticket.value.seqNo <= exec;
    }

    /** The cleaning loop: tallies led by a ticket that is already executed go. */
    method Survivors(name: Name, exec: uint64) returns (kept: map<Name, Ballot>)
      requires Valid()
      ensures kept.Keys <= voteCommitted.Keys - {name} && forall n <- kept :: kept[n] == voteCommitted[n]
      ensures forall n <- tallies :: n != name ==> Judged(tallies[n], exec, n in kept)
    {
      kept := voteCommitted - {name};
      var left := kept.Keys;
      while left != {}
        invariant left <= kept.Keys <= voteCommitted.Keys - {name} && forall n <- kept :: kept[n] == voteCommitted[n]
        invariant JudgedBut(tallies, name, exec, left, kept.Keys)
      {
        var n :| n in left;
        var behind := IsBehind(voteCommitted[n], tallies[n], exec);
        JudgedOne(tallies, name, exec, left, kept.Keys, n, behind);
        if behind { kept := kept - {n}; }
        left := left - {n};
      }
    }

    /** Only these vote objects stay. */
    method Keep(kept: map<Name, Ballot>)
      requires Valid() && kept.Keys <= voteCommitted.Keys && forall n <- kept :: kept[n] == voteCommitted[n]
      modifies `voteCommitted, `tallies
      ensures Valid() && tallies.Keys == kept.Keys && forall n <- tallies :: n in old(tallies) && tallies[n] == old(tallies)[n]
    {
      ghost var t := map n <- tallies | n in kept :: tallies[n];
      assert forall n <- kept :: Good(kept[n]) && kept[n].tickets == t[n];
      voteCommitted, tallies := kept, t;
    }

    /** A late announcement: the tally of its name goes, and those led by a ticket that is already executed. */
    method Clean(name: Name, exec: uint64)
      requires Valid()
      modifies `voteCommitted, `tallies
      ensures Valid() && Cleaned(old(tallies), tallies, name, exec)
    {
      var kept := Survivors(name, exec);
      Keep(kept);
    }

    ghost function Objects(name: Name): set<Ballot>
      reads this
    {
      if name in voteCommitted then {voteCommitted[name]} else {}
    }

    /** The vote object of a name, made when it is missing. */
    method VoteFor(name: Name) returns (v: Ballot)
      requires name in voteCommitted ==> Good(voteCommitted[name])
      modifies `voteCommitted
      ensures voteCommitted == old(voteCommitted)[name := v] && v.Valid() && v.key == CommittedKey
      ensures if name in old(voteCommitted) then v == old(voteCommitted)[name] else fresh(v) && v.tickets == map[]
    {
      if name in voteCommitted {
        v := voteCommitted[name];
      } else {
        v := new Vote(CommittedKey);
        voteCommitted := voteCommitted[name := v];
      }
    }

    /** v.Add on the vote object of the name. */
    method AddTo(ct: Committed, ghost t: Tally) returns (v: Ballot)
      requires if ct.name in voteCommitted then Good(voteCommitted[ct.name]) && voteCommitted[ct.name].tickets == t else t == map[]
      modifies `voteCommitted, Objects(ct.name)
      ensures voteCommitted == old(voteCommitted)[ct.name := v] && (v in old(Objects(ct.name)) || fresh(v))
      ensures Good(v) && v.tickets == Recorded(t, ct.replicaID, ct)
    {
      v := VoteFor(ct.name);
      v.Add(ct.replicaID, ct);
    }

    /** The ticket is recorded under its name; every other tally stays. */
    method Record(ct: Committed) returns (v: Ballot)
      requires Valid()
      modifies `voteCommitted, `tallies, Objects(ct.name)
      ensures Valid() && ct.name in voteCommitted && voteCommitted[ct.name] == v
      ensures tallies == old(tallies)[ct.name := Recorded(TallyIn(old(tallies), ct.name), ct.replicaID, ct)]
    {
      assert forall n <- voteCommitted :: n != ct.name ==> voteCommitted[n] !in Objects(ct.name);
      v := AddTo(ct, TallyIn(tallies, ct.name));
      tallies := tallies[ct.name := v.tickets];
    }

    /** The counting half of recvCommitted: the ticket is recorded under its name, and the batch passed on, with the tally
        closed, exactly when a quorum announced it. */
    method Count(ct: Committed) returns (passed: bool)
      requires Valid()
      modifies `voteCommitted, `tallies, Objects(ct.name)
      ensures Valid() && Received(quorum, old(tallies), ct, false, 0, tallies, passed)
    {
      ghost var before := tallies;
      var v := Record(ct);
      assert Good(v) && v.tickets == tallies[ct.name];
      var k := v.VoterByTicket(ct);
      passed := k >= quorum;
      if passed { Keep(voteCommitted - {ct.name}); }
      ReceivedInSteps(quorum, before, ct, tallies, passed);
    }

    /** recvCommitted, with the numbers stored in committedRequestBatch. */
    method RecvCommitted(ct: Committed, exec: uint64, stored: set<uint64>) returns (passed: bool)
      requires Valid()
      modifies `voteCommitted, `tallies, Objects(ct.name)
      ensures Valid()
      ensures Received(quorum, old(tallies), ct, ct.seqNo <= exec || ct.seqNo in stored, exec, tallies, passed)
    {
      if ct.seqNo <= exec || ct.seqNo in stored {
        Clean(ct.name, exec);
        passed := false;
      } else {
        passed := Count(ct);
      }
    }
  }
}
