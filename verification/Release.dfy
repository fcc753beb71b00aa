/**
 * Majority release of merged transactions (core/merge/filter.go, core/merge/cache/cachetable.go): a
 * transaction goes on once more than half the peers of the sub-chain have reported it.
 */
module Release {
  import opened Words

  /** Half of a 32-bit number of peers, rounded down. */
  type uint31 = x: int | 0 <= x < TWO_32 / 2

  datatype CountDot = CountDot(cnt: uint32, flag: bool)

  /** Counters per transaction hash, the cache of reports seen, and what was sent, in order. */
  datatype State = State(countDot: map<string, CountDot>, items: set<string>, sent: seq<string>)

  const START := State(map[], {}, [])

  datatype Report = Report(peer: string, hash: string)

  function CacheKey(r: Report): string {
    r.peer + r.hash
  }

  /** handleTx with the callback set, for a number of peers whose half is `half`. */
  function Handled(s: State, r: Report, half: uint31): State {
    var dot := if r.hash in s.countDot then s.countDot[r.hash] else CountDot(0, false);
    if CacheKey(r) in s.items then s.(countDot := s.countDot[r.hash := dot])
    else
      var items, cnt := s.items + {CacheKey(r)}, Inc32(dot.cnt);
      if cnt > half && !dot.flag then State(s.countDot - {r.hash}, items, s.sent + [r.hash])
      else State(s.countDot[r.hash := CountDot(cnt, dot.flag)], items, s.sent)
  }

  function Ran(rs: seq<Report>, half: uint31): State {
    if rs == [] then START else Handled(Ran(rs[..|rs| - 1], half), rs[|rs| - 1], half)
  }

  // ---- Counting ----

  /** The peers that reported a hash. */
  function Reporters(rs: seq<Report>, hash: string): set<string> {
    if rs == [] then {}
    else
      var r := rs[|rs| - 1];
      Reporters(rs[..|rs| - 1], hash) + if r.hash == hash then {r.peer} else {}
  }

  function Times(sent: seq<string>, hash: string): nat {
    if sent == [] then 0 else Times(sent[..|sent| - 1], hash) + if sent[|sent| - 1] == hash then 1 else 0
  }

  function Counted(s: State, hash: string): nat {
    if hash in s.countDot then s.countDot[hash].cnt else 0
  }

  /** How many reports make a majority. */
  function Majority(half: uint31): nat {
    half + 1
  }

  /** The reports used up by k releases. */
  function Majorities(k: nat, half: uint31): nat {
    if k == 0 then 0 else Majorities(k - 1, half) + Majority(half)
  }

  lemma {:induction false} MajoritiesProduct(k: nat, half: uint31)
    ensures Majorities(k, half) == k * Majority(half)
  {
    if k > 0 { MajoritiesProduct(k - 1, half); }
  }

  lemma TwoMajorities(k: nat, half: uint31)
    ensures k >= 2 ==> Majorities(k, half) >= 2 * Majority(half)
  {
    if k >= 2 { assert Majorities(k, half) == Majorities(k - 2, half) + Majority(half) + Majority(half); }
  }

  /** The reports of a hash are what was counted since the last release plus a majority per release. */
  ghost predicate Exact(s: State, rs: seq<Report>, hash: string, half: uint31) {
    && Counted(s, hash) < Majority(half)
    && (hash in s.countDot ==> !s.countDot[hash].flag)
    && |Reporters(rs, hash)| == Majorities(Times(s.sent, hash), half) + Counted(s, hash)
  }

  /** The cache holds exactly the reports seen. */
  ghost predicate Remembers(s: State, rs: seq<Report>, n: nat) {
    forall r: Report :: |r.hash| == n ==> (CacheKey(r) in s.items <==> r.peer in Reporters(rs, r.hash))
  }

  /** Hashes have one length, so peer and hash can be told apart in a key. */
  lemma KeyInjective(r: Report, q: Report)
    requires |r.hash| == |q.hash| && CacheKey(r) == CacheKey(q)
    ensures r == q
  {
    assert |r.peer| == |q.peer|;
    assert CacheKey(r)[..|r.peer|] == r.peer && CacheKey(q)[..|q.peer|] == q.peer;
    assert CacheKey(r)[|r.peer|..] == r.hash && CacheKey(q)[|q.peer|..] == q.hash;
  }

  lemma RememberStep(s: State, rs: seq<Report>, r: Report, n: nat, half: uint31)
    requires Remembers(s, rs, n) && |r.hash| == n
    ensures Remembers(Handled(s, r, half), rs + [r], n)
  {
    assert (rs + [r])[..|rs|] == rs;
    var s' := Handled(s, r, half);
    forall q: Report | |q.hash| == n ensures CacheKey(q) in s'.items <==> q.peer in Reporters(rs + [r], q.hash) {
      if CacheKey(q) == CacheKey(r) { KeyInjective(q, r); }
      assert CacheKey(q) in s.items <==> q.peer in Reporters(rs, q.hash);
    }
  }

  lemma SentStep(sent: seq<string>, sentNow: string, hash: string)
    ensures Times(sent + [sentNow], hash) == Times(sent, hash) + if sentNow == hash then 1 else 0
  {
    assert (sent + [sentNow])[..|sent|] == sent;
  }

  lemma ReportersNext(rs: seq<Report>, r: Report, hash: string)
    ensures Reporters(rs + [r], hash) == Reporters(rs, hash) + if r.hash == hash then {r.peer} else {}
  {
    assert (rs + [r])[..|rs|] == rs;
  }

  /** What one report does to the counter of its hash. */
  lemma HandledOwn(s: State, r: Report, half: uint31)
    requires Counted(s, r.hash) < Majority(half) && (r.hash in s.countDot ==> !s.countDot[r.hash].flag)
    ensures var s' := Handled(s, r, half);
            var c := Counted(s, r.hash);
            && (r.hash in s'.countDot ==> !s'.countDot[r.hash].flag)
            && (CacheKey(r) in s.items ==> s'.sent == s.sent && Counted(s', r.hash) == c)
            && (CacheKey(r) !in s.items && c + 1 == Majority(half) ==> s'.sent == s.sent + [r.hash] && Counted(s', r.hash) == 0)
            && (CacheKey(r) !in s.items && c + 1 < Majority(half) ==> s'.sent == s.sent && Counted(s', r.hash) == c + 1)
  {
  }

  lemma CountOwn(s: State, rs: seq<Report>, r: Report, half: uint31)
    requires Exact(s, rs, r.hash, half) && (CacheKey(r) in s.items <==> r.peer in Reporters(rs, r.hash))
    ensures Exact(Handled(s, r, half), rs + [r], r.hash, half)
  {
    var seen, k := Reporters(rs, r.hash), Times(s.sent, r.hash);
    ReportersNext(rs, r, r.hash);
    HandledOwn(s, r, half);
    SentStep(s.sent, r.hash, r.hash);
    assert Majorities(k + 1, half) == Majorities(k, half) + Majority(half);
    var s', c := Handled(s, r, half), Counted(s, r.hash);
    if CacheKey(r) in s.items {
      assert seen + {r.peer} == seen;
      assert Times(s'.sent, r.hash) == k;
    } else {
      assert |seen + {r.peer}| == Majorities(k, half) + c + 1;
      assert Times(s'.sent, r.hash) == if c + 1 == Majority(half) then k + 1 else k;
    }
  }

  lemma CountStep(s: State, rs: seq<Report>, r: Report, hash: string, n: nat, half: uint31)
    requires Remembers(s, rs, n) && |r.hash| == n && Exact(s, rs, hash, half)
    ensures Exact(Handled(s, r, half), rs + [r], hash, half)
  {
    if r.hash == hash {
      assert CacheKey(r) in s.items <==> r.peer in Reporters(rs, hash);
      CountOwn(s, rs, r, half);
    } else {
      ReportersNext(rs, r, hash);
      SentStep(s.sent, r.hash, hash);
    }
  }

  lemma {:induction false} RunRemembers(rs: seq<Report>, n: nat, half: uint31)
    requires forall r <- rs :: |r.hash| == n
    ensures Remembers(Ran(rs, half), rs, n)
  {
    if rs != [] {
      var before, r := rs[..|rs| - 1], rs[|rs| - 1];
      RunRemembers(before, n, half);
      RememberStep(Ran(before, half), before, r, n, half);
      assert rs == before + [r];
    }
  }

  lemma {:induction false} RunExact(rs: seq<Report>, hash: string, n: nat, half: uint31)
    requires forall r <- rs :: |r.hash| == n
    ensures Exact(Ran(rs, half), rs, hash, half)
  {
    if rs != [] {
      var before, r := rs[..|rs| - 1], rs[|rs| - 1];
      RunExact(before, hash, n, half);
      RunRemembers(before, n, half);
      CountStep(Ran(before, half), before, r, hash, n, half);
      assert rs == before + [r];
    }
  }

  /** Over any run a hash is released once for every majority of distinct peers: the number of releases is
      how many majorities its reporters fill. */
  lemma ReleasedPerMajority(rs: seq<Report>, hash: string, n: nat, half: uint31)
    requires forall r <- rs :: |r.hash| == n
    ensures var k := Times(Ran(rs, half).sent, hash);
            k * Majority(half) <= |Reporters(rs, hash)| < (k + 1) * Majority(half)
  {
    RunExact(rs, hash, n, half);
    var k := Times(Ran(rs, half).sent, hash);
    MajoritiesProduct(k, half);
    MajoritiesProduct(k + 1, half);
  }

  /** With at most peerNum peers nothing is released twice, and nothing before more than half of them
      reported it. */
  lemma AtMostOnce(rs: seq<Report>, hash: string, n: nat, peerNum: uint32, peers: set<string>)
    requires (forall r <- rs :: |r.hash| == n && r.peer in peers) && |peers| <= peerNum
    ensures Times(Ran(rs, peerNum / 2).sent, hash) <= 1
    ensures Times(Ran(rs, peerNum / 2).sent, hash) == 1 <==> 2 * |Reporters(rs, hash)| > peerNum
  {
    var half: uint31 := peerNum / 2;
    ReporterBound(rs, hash, peers);
    RunExact(rs, hash, n, half);
    TwoMajorities(Times(Ran(rs, half).sent, hash), half);
  }

  lemma {:induction false} ReporterBound(rs: seq<Report>, hash: string, peers: set<string>)
    requires forall r <- rs :: r.peer in peers
    ensures Reporters(rs, hash) <= peers && |Reporters(rs, hash)| <= |peers|
  {
    if rs != [] { ReporterBound(rs[..|rs| - 1], hash, peers); }
    SubsetSize(Reporters(rs, hash), peers);
  }

  lemma {:induction false} SubsetSize(a: set<string>, b: set<string>)
    ensures a <= b ==> |a| <= |b|
  {
    if a != {} && a <= b {
      var x :| x in a;
      SubsetSize(a - {x}, b - {x});
    }
  }

  // ---- The table ----

  class ChainCacheTable {
    var countDot: map<string, CountDot>
    var items: set<string>
    var sent: seq<string>

    constructor ()
      ensures Abstract() == START
    {
      countDot, items, sent := map[], {}, [];
    }

    ghost function Abstract(): State
      reads this
    {
      State(countDot, items, sent)
    }

    method NotFoundAdd(key: string) returns (exist: bool)
      modifies `items
      ensures exist <==> key in old(items)
      ensures items == old(items) + {key}
    {
      exist := key in items;
      if !exist { items := items + {key}; }
    }

    /** A first report of a peer is counted; when more than half the peers have reported the transaction it goes on and its
        counter is dropped. */
    method HandleTx(peerID: string, txHash: string, peerNum: uint32)
      modifies this
      ensures Abstract() == Handled(old(Abstract()), Report(peerID, txHash), peerNum / 2)
      ensures var known := peerID + txHash in old(items);
              var dot := if txHash in old(countDot) then old(countDot)[txHash] else CountDot(0, false);
              var released := !known && !dot.flag && (dot.cnt + 1) % TWO_32 > peerNum / 2;
              && items == old(items) + {peerID + txHash}
              && sent == (if released then old(sent) + [txHash] else old(sent))
              && (txHash in countDot <==> !released)
              && (!released ==> countDot[txHash] == if known then dot else CountDot((dot.cnt + 1) % TWO_32, dot.flag))
              && forall h | h != txHash :: (h in countDot <==> h in old(countDot)) && (h in countDot ==> countDot[h] == old(countDot)[h])
    {
      if txHash !in countDot { countDot := countDot[txHash := CountDot(0, false)]; }
      var exist := NotFoundAdd(peerID + txHash);
      if exist { return; }
      countDot := countDot[txHash := countDot[txHash].(cnt := Inc32(countDot[txHash].cnt))];
      if countDot[txHash].cnt > peerNum / 2 && !countDot[txHash].flag {
        sent := sent + [txHash];
        countDot := countDot - {txHash};
      }
    }
  }
}
