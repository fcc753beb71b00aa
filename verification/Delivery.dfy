/** In-order delivery of committed batches and the retention window
    (addCommittedReqeustBatch and checkpoint of core/consensus/lbft/lbft.go). */
module Delivery {
  import opened Words
  import opened Messages

  /** `out` is what has been handed on: the label and the batch read from the map (None when it is missing). */
  datatype State<B> = State(exec: uint64, store: map<uint64, B>, out: seq<Entry<B>>)
  datatype Entry<B> = Entry(seqNo: uint64, batch: Option<B>)

  function Lookup<B>(m: map<uint64, B>, k: uint64): Option<B> {
    if k in m then Some(m[k]) else None
  }

  /** One iteration of the scan over the keys; `first` is the smallest key at its start. */
  function Visit<B>(K: uint64, first: uint64, st: State<B>, seqNo: uint64): State<B> {
    if seqNo < Add64(st.exec, 1) then
      var n := Sub64(seqNo, K);
      if n >= first then st.(store := st.store - {n}) else st
    else if seqNo == Add64(st.exec, 1) then
      State(seqNo, st.store - {Sub64(seqNo, K)}, st.out + [Entry(seqNo, Lookup(st.store, seqNo))])
    else
      st
  }

  /** The scan over ascending keys stops at the first gap. */
  function Scan<B>(K: uint64, first: uint64, keys: seq<uint64>, st: State<B>): State<B> {
    if keys == [] || keys[0] > Add64(st.exec, 1) then st
    else Scan(K, first, keys[1..], Visit(K, first, st, keys[0]))
  }

  ghost predicate Ascending(keys: seq<uint64>) {
    forall i, j | 0 <= i < j < |keys| :: keys[i] < keys[j]
  }

  ghost function Elements(keys: seq<uint64>): set<uint64> { set k | k in keys }

  ghost function Smallest(s: set<uint64>): (m: uint64)
    requires s != {}
    ensures m in s && forall x | x in s :: m <= x
  {
    var x :| x in s;
    if s == {x} then x
    else
      var y := Smallest(s - {x});
      assert forall z | z in s :: z == x || z in s - {x};
      if x < y then x else y
  }

  /** The elements of `s` in ascending order. */
  ghost function Sorted(s: set<uint64>): (keys: seq<uint64>)
    ensures Ascending(keys) && Elements(keys) == s
  {
    if s == {} then [] else
      var m := Smallest(s);
      var rest := Sorted(s - {m});
      assert forall k | k in rest :: k in Elements(rest);
      Prepended(m, rest);
      assert {m} + (s - {m}) == s;
      [m] + rest
  }

  lemma Prepended(m: uint64, rest: seq<uint64>)
    requires Ascending(rest) && forall k | k in rest :: m < k
    ensures Ascending([m] + rest) && Elements([m] + rest) == {m} + Elements(rest)
  {
    var keys := [m] + rest;
    assert forall i | 0 < i < |keys| :: keys[i] == rest[i - 1] && keys[i] in rest;
  }

  lemma {:induction false} SortedUnique(a: seq<uint64>, b: seq<uint64>)
    requires Ascending(a) && Ascending(b) && Elements(a) == Elements(b)
    ensures a == b
  {
    assert forall k :: k in a <==> k in Elements(a);
    assert forall k :: k in b <==> k in Elements(b);
    assert |b| > 0 ==> b[0] in b;
    assert |a| > 0 ==> a[0] in a;
    if a != [] {
      assert a[0] in b && b[0] in a;
      assert a[0] == b[0];
      assert forall i | 0 < i < |a| :: a[i] > a[0];
      assert forall i | 0 < i < |b| :: b[i] > b[0];
      assert Elements(a[1..]) == Elements(a) - {a[0]};
      assert Elements(b[1..]) == Elements(b) - {b[0]};
      SortedUnique(a[1..], b[1..]);
    }
  }

  /** execSeqNo is taken from the smallest key while it is still zero. */
  function StartExec(exec: uint64, first: uint64): uint64 {
    if exec == 0 then Sub64(first, 1) else exec
  }

  ghost function Checkpointed<B>(K: uint64, st: State<B>): State<B> {
    var keys := Sorted(st.store.Keys);
    if keys == [] then st
    else Scan(K, keys[0], keys, st.(exec := StartExec(st.exec, keys[0])))
  }

  /** checkpoint() panics when the largest key is too far ahead. */
  ghost predicate FallenBehind<B>(K: uint64, before: State<B>, after: State<B>) {
    exists k :: k in before.store && k > Add64(Add64(after.exec, 1), K)
  }

  ghost function Stored<B>(st: State<B>, seqNo: uint64, batch: B): State<B> {
    st.(store := st.store[seqNo := batch])
  }

  /** addCommittedReqeustBatch: a sequence number already stored is ignored. */
  ghost function Add<B>(K: uint64, st: State<B>, seqNo: uint64, batch: B): State<B> {
    if seqNo in st.store then st else Checkpointed(K, Stored(st, seqNo, batch))
  }

  ghost predicate Panics<B>(K: uint64, st: State<B>, seqNo: uint64, batch: B) {
    seqNo !in st.store && FallenBehind(K, Stored(st, seqNo, batch), Add(K, st, seqNo, batch))
  }

  // ---------------------------------------------------------------- what one scan does

  /** The last sequence number of the gap-free run of keys that starts above `e`. */
  ghost function RunEnd<B>(m: map<uint64, B>, e: uint64): (r: uint64)
    ensures e <= r
    decreases TWO_64 - e
  {
    if e + 1 < TWO_64 && e + 1 in m then RunEnd(m, e + 1) else e
  }

  lemma {:induction false} RunEndMaximal<B>(m: map<uint64, B>, e: uint64)
    ensures forall k: uint64 | e < k <= RunEnd(m, e) :: k in m
    ensures RunEnd(m, e) + 1 < TWO_64 ==> RunEnd(m, e) + 1 !in m
    decreases TWO_64 - e
  {
    if e + 1 < TWO_64 && e + 1 in m { RunEndMaximal(m, e + 1); }
  }

  /** The entries for the sequence numbers above `e` up to `r`. */
  ghost function Entries<B>(m: map<uint64, B>, e: uint64, r: uint64): (es: seq<Entry<B>>)
    requires e <= r
    decreases r - e
  {
    if e == r then [] else [Entry(e + 1, Lookup(m, e + 1))] + Entries(m, e + 1, r)
  }

  lemma {:induction false} EntriesAt<B>(m: map<uint64, B>, e: uint64, r: uint64)
    requires e <= r
    ensures |Entries(m, e, r)| == r - e
    ensures forall i | 0 <= i < r - e :: Entries(m, e, r)[i] == Entry(e + 1 + i, Lookup(m, e + 1 + i))
    decreases r - e
  {
    if e < r {
      EntriesAt(m, e + 1, r);
      assert forall i | 0 < i < r - e :: Entries(m, e, r)[i] == Entries(m, e + 1, r)[i - 1];
    }
  }

  lemma {:induction false} EntriesFrame<B>(m: map<uint64, B>, m': map<uint64, B>, e: uint64, r: uint64)
    requires e <= r
    requires forall k: uint64 | k > e :: Lookup(m, k) == Lookup(m', k)
    ensures Entries(m, e, r) == Entries(m', e, r)
    decreases r - e
  {
    if e < r { EntriesFrame(m, m', e + 1, r); }
  }

  /** The visit of the small key `r` drops, through the wrap-around of `r - K`, a stored key that is still to be handed on. */
  ghost predicate Hits<B>(K: uint64, m: map<uint64, B>, keys: set<uint64>, e: uint64, r: uint64) {
    r in keys && r < K && r <= RunEnd(m, e) && e < Sub64(r, K) && Sub64(r, K) in m
  }

  ghost predicate NothingAheadHit<B>(K: uint64, m: map<uint64, B>, keys: set<uint64>, e: uint64) {
    forall r {:trigger Hits(K, m, keys, e, r)} :: !Hits(K, m, keys, e, r)
  }

  /** A scan over `keys` that ends at `r` deletes exactly the keys K below a visited one, modulo 2^64. */
  predicate Dropped(K: uint64, r: uint64, keys: set<uint64>, k: uint64) {
    Add64(k, K) in keys && Add64(k, K) <= r
  }

  /** What a scan from `st` yields: the whole gap-free run is handed on in order, each entry
      with its own batch, and only dropped keys leave the map. */
  ghost predicate ScanResult<B>(K: uint64, keys: set<uint64>, st: State<B>, st': State<B>) {
    && st'.exec == RunEnd(st.store, st.exec)
    && st'.out == st.out + Entries(st.store, st.exec, st'.exec)
    && (forall k {:trigger k in st'.store} | k in st'.store :: k in st.store && st'.store[k] == st.store[k])
    && (forall k {:trigger k in st'.store} | k in st.store :: k in st'.store <==> !Dropped(K, st'.exec, keys, k))
  }

  /** Removing keys at or below `e` does not change the run above it. */
  lemma {:induction false} RunEndFrame<B>(m: map<uint64, B>, m': map<uint64, B>, e: uint64)
    requires forall k: uint64 | k > e :: k in m <==> k in m'
    ensures RunEnd(m, e) == RunEnd(m', e)
    decreases TWO_64 - e
  {
    if e + 1 < TWO_64 && e + 1 in m { RunEndFrame(m, m', e + 1); }
  }

  lemma VisitOlder<B>(K: uint64, first: uint64, st: State<B>, r: uint64)
    requires r <= st.exec && st.exec + 1 < TWO_64
    requires forall k | k in st.store :: first <= k
    ensures Visited(K, st, Visit(K, first, st, r), r)
    ensures Visit(K, first, st, r).exec == st.exec && Visit(K, first, st, r).out == st.out
  {
  }

  lemma VisitNext<B>(K: uint64, first: uint64, st: State<B>, r: uint64)
    requires r in st.store && r == st.exec + 1
    ensures Visited(K, st, Visit(K, first, st, r), r)
    ensures Visit(K, first, st, r).exec == r && Visit(K, first, st, r).out == st.out + [Entry(r, Some(st.store[r]))]
  {
  }

  /** The visit of `r` drops the one key K below it. */
  ghost predicate Visited<B>(K: uint64, st: State<B>, mid: State<B>, r: uint64) {
    && (forall k | k in mid.store :: k in st.store && mid.store[k] == st.store[k])
    && (forall k {:trigger k in mid.store} | k in st.store :: k in mid.store <==> Add64(k, K) != r)
  }

  /** The scan delivers exactly the gap-free run above execSeqNo, and drops nothing above it. */
  lemma {:induction false} ScanSpec<B>(K: uint64, first: uint64, keys: seq<uint64>, st: State<B>)
    requires Scannable(K, first, keys, st)
    ensures ScanResult(K, Elements(keys), st, Scan(K, first, keys, st))
    decreases |keys|
  {
    if keys == [] || keys[0] > Add64(st.exec, 1) {
      ScanStops(K, first, keys, st);
    } else {
      var mid := Visit(K, first, st, keys[0]);
      ScanMid(K, first, keys, st);
      ScanSpec(K, first, keys[1..], mid);
      if keys[0] <= st.exec {
        VisitOlder(K, first, st, keys[0]);
        VisitKeepsAhead(K, st, mid, keys[0], Elements(keys));
        ComposeOlder(K, st, mid, Scan(K, first, keys[1..], mid), keys[0], Elements(keys[1..]));
      } else {
        VisitNext(K, first, st, keys[0]);
        VisitKeepsAhead(K, st, mid, keys[0], Elements(keys));
        ComposeNext(K, st, mid, Scan(K, first, keys[1..], mid), keys[0], Elements(keys[1..]));
      }
    }
  }

  /** `keys` are the keys still to be visited: all those above execSeqNo and maybe some below. */
  ghost predicate Scannable<B>(K: uint64, first: uint64, keys: seq<uint64>, st: State<B>) {
    && Ascending(keys)
    && (forall k: uint64 | k > st.exec :: k in keys <==> k in st.store)
    && (forall k | k in st.store :: first <= k)
    && NothingAheadHit(K, st.store, Elements(keys), st.exec)
    && (st.exec + 1 < TWO_64 || keys == [])
  }

  lemma ScanStops<B>(K: uint64, first: uint64, keys: seq<uint64>, st: State<B>)
    requires Scannable(K, first, keys, st)
    requires keys == [] || keys[0] > Add64(st.exec, 1)
    ensures ScanResult(K, Elements(keys), st, st)
  {
    if keys == [] {
      assert Elements(keys) == {};
    } else {
      assert forall k | k in keys :: k >= keys[0];
      assert st.exec + 1 !in st.store;
    }
  }

  lemma ScanMid<B>(K: uint64, first: uint64, keys: seq<uint64>, st: State<B>)
    requires Scannable(K, first, keys, st)
    requires keys != [] && keys[0] <= Add64(st.exec, 1)
    ensures st.exec + 1 < TWO_64 && keys[0] <= st.exec + 1 && (keys[0] > st.exec ==> keys[0] in st.store)
    ensures Scannable(K, first, keys[1..], Visit(K, first, st, keys[0]))
    ensures Elements(keys) == {keys[0]} + Elements(keys[1..])
    ensures forall k | k in keys[1..] :: k > keys[0]
  {
    RestOf(keys);
    assert keys[0] in keys;
    if |keys| > 1 { assert keys[0] < keys[1]; }
    MidScannable(K, first, keys, st, keys[0], keys[1..]);
  }

  lemma RestOf(keys: seq<uint64>)
    requires Ascending(keys) && keys != []
    ensures Ascending(keys[1..]) && Elements(keys) == {keys[0]} + Elements(keys[1..])
    ensures forall k | k in keys[1..] :: k in keys && k > keys[0]
    ensures forall k | k in keys :: k == keys[0] || k in keys[1..]
  {
    assert keys == [keys[0]] + keys[1..];
  }

  lemma SubAdd(k: uint64, K: uint64)
    ensures Sub64(Add64(k, K), K) == k && (k + K < TWO_64 <==> Add64(k, K) >= K) && (k + K < TWO_64 ==> Add64(k, K) == k + K)
  {
  }

  /** The keys in order. */
  lemma SortedHas(keys: set<uint64>)
    ensures forall k :: k in Sorted(keys) <==> k in keys
    ensures keys != {} ==> Sorted(keys) != [] && Sorted(keys)[0] in keys && forall k | k in keys :: Sorted(keys)[0] <= k
  {
    var sorted := Sorted(keys);
    forall k ensures k in sorted <==> k in keys { assert k in Elements(sorted) <==> k in keys; }
    if keys != {} {
      var k :| k in keys;
      assert k in sorted && sorted[0] in sorted;
    }
  }

  /** A visit that deletes only what was handed on leaves the run above. */
  lemma VisitKeepsAhead<B>(K: uint64, st: State<B>, mid: State<B>, r: uint64, keys: set<uint64>)
    requires r in keys && (r > st.exec ==> r in st.store) && r <= st.exec + 1 < TWO_64 && NothingAheadHit(K, st.store, keys, st.exec)
    requires Visited(K, st, mid, r) && mid.exec == if r <= st.exec then st.exec else r
    ensures forall k: uint64 | k > mid.exec :: Lookup(st.store, k) == Lookup(mid.store, k)
    ensures RunEnd(mid.store, mid.exec) == RunEnd(st.store, mid.exec) == RunEnd(st.store, st.exec)
  {
    assert !Hits(K, st.store, keys, st.exec, r);
    forall k: uint64 | k > mid.exec ensures Lookup(st.store, k) == Lookup(mid.store, k) {
      SubAdd(k, K);
    }
    forall k: uint64 | k > mid.exec ensures k in st.store <==> k in mid.store {
      assert Lookup(st.store, k) == Lookup(mid.store, k);
    }
    RunEndFrame(st.store, mid.store, mid.exec);
  }

  lemma MidScannable<B>(K: uint64, first: uint64, keys: seq<uint64>, st: State<B>, r: uint64, rest: seq<uint64>)
    requires Scannable(K, first, keys, st) && r in keys && r <= st.exec + 1 < TWO_64
    requires Ascending(rest) && (forall k | k in rest :: k in keys && k > r) && (forall k | k in keys :: k == r || k in rest)
    requires rest == [] || r + 1 < TWO_64
    ensures Scannable(K, first, rest, Visit(K, first, st, r))
  {
    if r <= st.exec { VisitOlder(K, first, st, r); } else { VisitNext(K, first, st, r); }
    var mid := Visit(K, first, st, r);
    VisitKeepsAhead(K, st, mid, r, Elements(keys));
    RestStored(K, first, keys, st, r, rest, mid);
  }

  lemma RestStored<B>(K: uint64, first: uint64, keys: seq<uint64>, st: State<B>, r: uint64, rest: seq<uint64>, mid: State<B>)
    requires Scannable(K, first, keys, st) && r in keys && r <= st.exec + 1 < TWO_64
    requires Ascending(rest) && (forall k | k in rest :: k in keys && k > r) && (forall k | k in keys :: k == r || k in rest)
    requires rest == [] || r + 1 < TWO_64
    requires Visited(K, st, mid, r) && mid.exec == if r <= st.exec then st.exec else r
    requires forall k: uint64 | k > mid.exec :: Lookup(st.store, k) == Lookup(mid.store, k)
    requires RunEnd(mid.store, mid.exec) == RunEnd(st.store, st.exec)
    ensures Scannable(K, first, rest, mid)
  {
    forall k: uint64 | k > mid.exec ensures k in rest <==> k in mid.store {
      assert k in keys <==> k in st.store;
      assert Lookup(st.store, k) == Lookup(mid.store, k);
    }
    RestNotHit(K, keys, st, rest, mid);
    if r > st.exec && rest != [] { assert rest[0] in rest; }
  }

  lemma RestNotHit<B>(K: uint64, keys: seq<uint64>, st: State<B>, rest: seq<uint64>, mid: State<B>)
    requires NothingAheadHit(K, st.store, Elements(keys), st.exec) && st.exec <= mid.exec
    requires (forall k | k in rest :: k in keys) && (forall k | k in mid.store :: k in st.store)
    requires RunEnd(mid.store, mid.exec) == RunEnd(st.store, st.exec)
    ensures NothingAheadHit(K, mid.store, Elements(rest), mid.exec)
  {
    assert forall k | k in Elements(rest) :: k in Elements(keys);
    forall r ensures !Hits(K, mid.store, Elements(rest), mid.exec, r) {
      assert !Hits(K, st.store, Elements(keys), st.exec, r);
    }
  }

  /** A visited older key only adds to the dropped keys. */
  lemma ComposeOlder<B>(K: uint64, st: State<B>, mid: State<B>, st': State<B>, r: uint64, rest: set<uint64>)
    requires r <= st.exec && mid.exec == st.exec && mid.out == st.out && Visited(K, st, mid, r)
    requires forall k: uint64 | k > mid.exec :: Lookup(st.store, k) == Lookup(mid.store, k)
    requires RunEnd(mid.store, mid.exec) == RunEnd(st.store, st.exec)
    requires ScanResult(K, rest, mid, st')
    ensures ScanResult(K, {r} + rest, st, st')
  {
    EntriesFrame(st.store, mid.store, st.exec, st'.exec);
  }

  /** A delivered key extends the run by one and drops the key K below it. */
  lemma ComposeNext<B>(K: uint64, st: State<B>, mid: State<B>, st': State<B>, r: uint64, rest: set<uint64>)
    requires r in st.store && mid.exec == r == st.exec + 1 && mid.out == st.out + [Entry(r, Some(st.store[r]))]
    requires Visited(K, st, mid, r)
    requires forall k: uint64 | k > mid.exec :: Lookup(st.store, k) == Lookup(mid.store, k)
    requires RunEnd(mid.store, mid.exec) == RunEnd(st.store, st.exec)
    requires ScanResult(K, rest, mid, st')
    ensures ScanResult(K, {r} + rest, st, st')
  {
    EntriesFrame(st.store, mid.store, r, st'.exec);
    assert st'.out == st.out + Entries(st.store, st.exec, st'.exec);
  }

  /** checkpoint() as a whole, once something was handed on, when no wrapped deletion hits a key still to be handed on. */
  lemma CheckpointSpec<B>(K: uint64, st: State<B>)
    requires st.store != map[] && 1 <= st.exec && st.exec + 1 < TWO_64
    requires NothingAheadHit(K, st.store, st.store.Keys, st.exec)
    ensures ScanResult(K, st.store.Keys, st, Checkpointed(K, st))
  {
    var keys := Sorted(st.store.Keys);
    assert forall k | k in keys :: k in Elements(keys);
    assert forall k | k in st.store :: k in Elements(keys);
    assert keys != [] by { var k :| k in st.store; assert k in keys; }
    assert forall k | k in keys :: keys[0] <= k;
    assert st.(exec := StartExec(st.exec, keys[0])) == st;
    ScanSpec(K, keys[0], keys, st);
  }

  /** Whatever wraps, a scan hands on and keeps only batches that were stored. */
  ghost predicate FromStore<B>(st: State<B>, st': State<B>) {
    && (forall k | k in st'.store :: k in st.store && st'.store[k] == st.store[k])
    && (forall e | e in st'.out && e.batch.Some? ::
          e in st.out || (e.seqNo in st.store && e.batch.value == st.store[e.seqNo]))
  }

  lemma {:induction false} ScanFromStore<B>(K: uint64, first: uint64, keys: seq<uint64>, st: State<B>)
    ensures FromStore(st, Scan(K, first, keys, st))
    decreases |keys|
  {
    if !(keys == [] || keys[0] > Add64(st.exec, 1)) {
      ScanFromStore(K, first, keys[1..], Visit(K, first, st, keys[0]));
    }
  }

  lemma AddFromStore<B>(K: uint64, st: State<B>, s: uint64, b: B)
    requires s !in st.store
    ensures FromStore(Stored(st, s, b), Add(K, st, s, b))
  {
    var next := Stored(st, s, b);
    var keys := Sorted(next.store.Keys);
    if keys != [] { ScanFromStore(K, keys[0], keys, next.(exec := StartExec(next.exec, keys[0]))); }
  }

  // ---------------------------------------------------------------- exactly-once delivery over whole runs

  datatype Input<B> = Input(seqNo: uint64, batch: B)

  /** The additions `inputs` one after the other, from `st` on. */
  ghost function RunFrom<B>(K: uint64, st: State<B>, inputs: seq<Input<B>>): State<B> {
    if inputs == [] then st
    else
      var x := inputs[|inputs| - 1];
      Add(K, RunFrom(K, st, inputs[..|inputs| - 1]), x.seqNo, x.batch)
  }

  /** The additions to a new store. */
  ghost function Run<B>(K: uint64, inputs: seq<Input<B>>): State<B> {
    RunFrom(K, State(0, map[], []), inputs)
  }

  /** The first batch offered for each sequence number. */
  ghost function Offers<B>(inputs: seq<Input<B>>): map<uint64, B> {
    if inputs == [] then map[]
    else
      var x := inputs[|inputs| - 1];
      Offer(Offers(inputs[..|inputs| - 1]), x.seqNo, x.batch)
  }

  ghost function Offer<B>(offers: map<uint64, B>, s: uint64, b: B): map<uint64, B> {
    if s in offers then offers else offers[s := b]
  }

  /** The entries handed on start at `f`, are consecutive, each labelled with itself and carrying the first batch offered. */
  ghost predicate Stream<B>(offers: map<uint64, B>, f: uint64, st: State<B>) {
    && 1 <= f <= st.exec && |st.out| == st.exec - f + 1
    && (forall k: uint64 | f <= k <= st.exec :: k in offers)
    && forall i | 0 <= i < |st.out| :: st.out[i] == Entry(f + i, Lookup(offers, f + i))
  }

  /** Everything offered above execSeqNo is still stored, and execSeqNo + 1 was never offered. */
  ghost predicate Buffered<B>(offers: map<uint64, B>, st: State<B>) {
    && (forall k: uint64 | k > st.exec :: Lookup(st.store, k) == Lookup(offers, k))
    && (forall k | k in st.store :: k in offers)
    && (st.exec + 1 < TWO_64 ==> st.exec + 1 !in offers)
  }

  ghost predicate InOrder<B>(offers: map<uint64, B>, f: uint64, st: State<B>) {
    Stream(offers, f, st) && Buffered(offers, st)
  }

  lemma CheckpointKeys<B>(keys: seq<uint64>, st: State<B>, K: uint64)
    requires keys != [] && Ascending(keys) && Elements(keys) == st.store.Keys
    ensures Checkpointed(K, st) == Scan(K, keys[0], keys, st.(exec := StartExec(st.exec, keys[0])))
  {
    SortedUnique(keys, Sorted(st.store.Keys));
  }

  /** The first batch added is handed on at once. */
  lemma FirstResult<B>(K: uint64, s: uint64, b: B)
    requires 1 <= s
    ensures Add(K, State(0, map[], []), s, b) == State(s, if K == 0 then map[] else map[s := b], [Entry(s, Some(b))])
  {
    var st0: State<B> := State(0, map[], []);
    var st := Stored(st0, s, b);
    CheckpointKeys([s], st, K);
    var st1 := State(s, st.store - {Sub64(s, K)}, [Entry(s, Some(b))]);
    assert Visit(K, s, st.(exec := s - 1), s) == st1;
    assert Scan(K, s, [s], st.(exec := s - 1)) == Scan(K, s, [s][1..], st1);
    assert st1.store == if K == 0 then map[] else map[s := b];
  }

  // ---------------------------------------------------------------- when an addition breaks the order

  /** The wrap-around reaches a batch still to be handed on: a small key that is visited drops it; or execSeqNo is the
      largest number and 0 is stored. */
  ghost predicate WrapHit<B>(K: uint64, m: map<uint64, B>, e: uint64) {
    if e + 1 == TWO_64 then 0 in m
    else !NothingAheadHit(K, m, m.Keys, e)
  }

  /** A key that is not stored is handed on, if at all, without its batch, and is not stored afterwards. */
  lemma {:induction false} ScanMissing<B>(K: uint64, first: uint64, keys: seq<uint64>, st: State<B>, n: uint64)
    requires n !in st.store
    ensures Lost(st, Scan(K, first, keys, st), n)
    decreases |keys|
  {
    if !(keys == [] || keys[0] > Add64(st.exec, 1)) {
      ScanMissing(K, first, keys[1..], Visit(K, first, st, keys[0]), n);
    }
  }

  /** `n` is not stored, and what was handed on for it since `st` is no batch. */
  ghost predicate Lost<B>(st: State<B>, st': State<B>, n: uint64) {
    && n !in st'.store && |st.out| <= |st'.out| && st'.out[..|st.out|] == st.out
    && forall j | |st.out| <= j < |st'.out| && st'.out[j].seqNo == n :: st'.out[j].batch == None
  }

  /** `keys` has the same numbers above `e` as the map. */
  ghost predicate Follows<B>(keys: seq<uint64>, e: uint64, m: map<uint64, B>) {
    forall k: uint64 | k > e :: k in keys <==> k in m
  }

  /** A key the scan reaches is the next to be handed on or older, when it is the smallest. */
  lemma FirstReached<B>(keys: seq<uint64>, e: uint64, m: map<uint64, B>, r: uint64)
    requires Ascending(keys) && r in keys && Follows(keys, e, m) && r <= RunEnd(m, e)
    ensures keys[0] <= e + 1 && keys[0] <= r && (keys[0] > e ==> keys[0] == e + 1 && e + 1 < TWO_64 && e + 1 in m)
  {
    assert forall k | k in keys :: keys[0] <= k;
    assert keys[0] in keys;
    if r > e { assert e + 1 < TWO_64 && e + 1 in m; }
  }

  lemma {:induction false} ScanHits<B>(K: uint64, first: uint64, keys: seq<uint64>, st: State<B>, m: map<uint64, B>, r: uint64)
    requires Ascending(keys) && r in keys && Follows(keys, st.exec, m) && r <= RunEnd(m, st.exec) && st.exec + 1 < TWO_64
    requires r < K && first <= Sub64(r, K)
    ensures Lost(st, Scan(K, first, keys, st), Sub64(r, K))
    decreases |keys|
  {
    FirstReached(keys, st.exec, m, r);
    RestOf(keys);
    var n, mid := Sub64(r, K), Visit(K, first, st, keys[0]);
    assert keys[0] < n && mid.exec == if keys[0] <= st.exec then st.exec else keys[0];
    if keys[0] == r {
      assert n !in mid.store;
      ScanMissing(K, first, keys[1..], mid, n);
    } else {
      RestFollows(keys, st.exec, m, mid.exec, r);
      ScanHits(K, first, keys[1..], mid, m, r);
    }
    LostBefore(st, mid, Scan(K, first, keys[1..], mid), n);
  }

  lemma RestFollows<B>(keys: seq<uint64>, e: uint64, m: map<uint64, B>, e': uint64, r: uint64)
    requires Ascending(keys) && keys != [] && r in keys[1..] && e + 1 < TWO_64 && Follows(keys, e, m) && r <= RunEnd(m, e)
    requires keys[0] <= e + 1 && (keys[0] > e ==> e + 1 < TWO_64 && e + 1 in m) && e' == if keys[0] <= e then e else keys[0]
    ensures Follows(keys[1..], e', m) && r <= RunEnd(m, e') && e' + 1 < TWO_64
  {
    RestOf(keys);
  }

  lemma LostBefore<B>(st: State<B>, mid: State<B>, st': State<B>, n: uint64)
    requires Lost(mid, st', n) && |st.out| <= |mid.out| <= |st.out| + 1 && mid.out[..|st.out|] == st.out
    requires |mid.out| > |st.out| ==> mid.out[|st.out|].seqNo != n
    ensures Lost(st, st', n)
  {
    assert st'.out[..|mid.out|] == mid.out;
    if |mid.out| > |st.out| { assert st'.out[|st.out|] == mid.out[|st.out|]; }
    assert st'.out[..|st.out|] == mid.out[..|st.out|];
  }

  /** Whatever is deleted, the numbers handed on are those of the keys. */
  lemma AddHits<B>(K: uint64, st: State<B>, s: uint64, b: B, r: uint64)
    requires s !in st.store && 1 <= st.exec && st.exec + 1 < TWO_64
    requires var m := Stored(st, s, b).store; r in m && r < K && r <= RunEnd(m, st.exec) && Sub64(r, K) in m
    ensures Lost(st, Add(K, st, s, b), Sub64(r, K))
  {
    var next := Stored(st, s, b);
    var keys := Sorted(next.store.Keys);
    SortedHas(next.store.Keys);
    assert r in next.store.Keys;
    assert next.(exec := StartExec(next.exec, keys[0])) == next;
    ScanHits(K, keys[0], keys, next, next.store, r);
  }

  /** A lost number leaves the order broken. */
  lemma LostBreaks<B>(offers: map<uint64, B>, f: uint64, st: State<B>, st': State<B>, n: uint64)
    requires |st.out| == st.exec - f + 1 && st.exec < n && n in offers && Lost(st, st', n)
    ensures !InOrder(offers, f, st')
  {
    if n > st'.exec {
      assert Lookup(st'.store, n) != Lookup(offers, n);
    } else if n - f < |st'.out| {
      assert st'.out[n - f] != Entry(n, Lookup(offers, n));
      assert f + (n - f) == n;
    }
  }

  lemma {:induction false} ScanGrows<B>(K: uint64, first: uint64, keys: seq<uint64>, st: State<B>)
    ensures |st.out| <= |Scan(K, first, keys, st).out|
    decreases |keys|
  {
    if !(keys == [] || keys[0] > Add64(st.exec, 1)) { ScanGrows(K, first, keys[1..], Visit(K, first, st, keys[0])); }
  }

  /** At the largest number only a stored 0 makes the scan move, and then backwards. */
  lemma AtTheEnd<B>(K: uint64, offers: map<uint64, B>, f: uint64, st: State<B>, s: uint64, b: B)
    requires InOrder(offers, f, st) && s !in st.store && st.exec + 1 == TWO_64
    ensures InOrder(Offer(offers, s, b), f, Add(K, st, s, b)) <==> 0 !in Stored(st, s, b).store
  {
    var next := Stored(st, s, b);
    assert s in next.store;
    EndScan(K, next);
    if 0 !in next.store { SameAbove(offers, st, s, b); }
  }

  lemma EndScan<B>(K: uint64, st: State<B>)
    requires st.store != map[] && st.exec + 1 == TWO_64
    ensures if 0 in st.store then |Checkpointed(K, st).out| > |st.out| else Checkpointed(K, st) == st
  {
    var keys := Sorted(st.store.Keys);
    SortedHas(st.store.Keys);
    assert st.(exec := StartExec(st.exec, keys[0])) == st;
    if 0 in st.store {
      assert 0 in st.store.Keys && keys[0] == 0;
      ScanGrows(K, 0, keys[1..], Visit(K, 0, st, 0));
    }
  }

  /** An addition keeps the order if and only if the wrap-around reaches nothing that is still to be handed on. */
  lemma AddExact<B>(K: uint64, offers: map<uint64, B>, f: uint64, st: State<B>, s: uint64, b: B)
    requires InOrder(offers, f, st) && s !in st.store
    ensures InOrder(Offer(offers, s, b), f, Add(K, st, s, b)) <==> !WrapHit(K, Stored(st, s, b).store, st.exec)
  {
    var next := Stored(st, s, b);
    if st.exec + 1 == TWO_64 {
      AtTheEnd(K, offers, f, st, s, b);
    } else if WrapHit(K, next.store, st.exec) {
      HitBreaks(K, offers, f, st, s, b);
    } else {
      NoHitKeeps(K, offers, f, st, s, b);
    }
  }

  lemma HitBreaks<B>(K: uint64, offers: map<uint64, B>, f: uint64, st: State<B>, s: uint64, b: B)
    requires InOrder(offers, f, st) && s !in st.store && st.exec + 1 < TWO_64 && WrapHit(K, Stored(st, s, b).store, st.exec)
    ensures !InOrder(Offer(offers, s, b), f, Add(K, st, s, b))
  {
    var m := Stored(st, s, b).store;
    var r :| Hits(K, m, m.Keys, st.exec, r);
    AddHits(K, st, s, b, r);
    var n, st' := Sub64(r, K), Add(K, st, s, b);
    assert n in Offer(offers, s, b) by { SameAbove(offers, st, s, b); }
    LostBreaks(Offer(offers, s, b), f, st, st', n);
  }

  lemma NoHitKeeps<B>(K: uint64, offers: map<uint64, B>, f: uint64, st: State<B>, s: uint64, b: B)
    requires InOrder(offers, f, st) && s !in st.store && st.exec + 1 < TWO_64 && !WrapHit(K, Stored(st, s, b).store, st.exec)
    ensures InOrder(Offer(offers, s, b), f, Add(K, st, s, b))
  {
    var next := Stored(st, s, b);
    assert s in next.store;
    CheckpointSpec(K, next);
    AddNewInOrder(K, offers, f, st, s, b, Add(K, st, s, b));
  }

  // ---------------------------------------------------------------- whole runs

  /** The i-th addition of a run reaches nothing that is still to be handed on. */
  ghost predicate Harmless<B>(K: uint64, inputs: seq<Input<B>>, i: nat)
    requires i < |inputs|
  {
    var st, x := Run(K, inputs[..i]), inputs[i];
    x.seqNo in st.store || !WrapHit(K, Stored(st, x.seqNo, x.batch).store, st.exec)
  }

  ghost predicate InOrderAt<B>(K: uint64, inputs: seq<Input<B>>, i: nat)
    requires 0 < i <= |inputs|
  {
    InOrder(Offers(inputs[..i]), inputs[0].seqNo, Run(K, inputs[..i]))
  }

  lemma PrefixRun<B>(K: uint64, inputs: seq<Input<B>>, i: nat)
    requires i < |inputs|
    ensures Run(K, inputs[..i + 1]) == Add(K, Run(K, inputs[..i]), inputs[i].seqNo, inputs[i].batch)
    ensures Offers(inputs[..i + 1]) == Offer(Offers(inputs[..i]), inputs[i].seqNo, inputs[i].batch)
  {
    assert inputs[..i + 1][..i] == inputs[..i] && inputs[..i + 1][i] == inputs[i];
  }

  /** One more addition of a run. */
  lemma InOrderStep<B>(K: uint64, inputs: seq<Input<B>>, i: nat)
    requires 0 < i < |inputs| && InOrderAt(K, inputs, i)
    ensures InOrderAt(K, inputs, i + 1) <==> Harmless(K, inputs, i)
  {
    PrefixRun(K, inputs, i);
    var st, offers, x := Run(K, inputs[..i]), Offers(inputs[..i]), inputs[i];
    if x.seqNo !in st.store {
      AddExact(K, offers, inputs[0].seqNo, st, x.seqNo, x.batch);
    }
  }

  lemma FirstInOrder<B>(K: uint64, inputs: seq<Input<B>>)
    requires inputs != []
    ensures InOrderAt(K, inputs, 1) <==> inputs[0].seqNo >= 1
  {
    PrefixRun(K, inputs, 0);
    var x := inputs[0];
    assert inputs[..0] == [];
    if x.seqNo >= 1 { FirstResult(K, x.seqNo, x.batch); }
  }

  lemma {:induction false} InOrderUpTo<B>(K: uint64, inputs: seq<Input<B>>, i: nat)
    requires 0 < i <= |inputs| && inputs[0].seqNo >= 1 && forall j | 0 < j < i :: Harmless(K, inputs, j)
    ensures InOrderAt(K, inputs, i)
  {
    if i == 1 {
      FirstInOrder(K, inputs);
    } else {
      InOrderUpTo(K, inputs, i - 1);
      InOrderStep(K, inputs, i - 1);
    }
  }

  /** For any order and duplication of the calls: after each call the delivered stream is the gap-free run of sequence
      numbers from the first one added, each exactly once, labelled with itself and carrying the first batch offered for
      it, and as long as it can be, if and only if the first number is not 0 and no addition is one whose wrap-around
      reaches a batch still to be handed on. */
  lemma ExactlyOnceInOrder<B>(K: uint64, inputs: seq<Input<B>>)
    requires inputs != []
    ensures (forall i | 0 < i <= |inputs| :: InOrderAt(K, inputs, i))
       <==> inputs[0].seqNo >= 1 && forall i | 0 < i < |inputs| :: Harmless(K, inputs, i)
  {
    if inputs[0].seqNo >= 1 && forall i | 0 < i < |inputs| :: Harmless(K, inputs, i) {
      forall i | 0 < i <= |inputs| ensures InOrderAt(K, inputs, i) { InOrderUpTo(K, inputs, i); }
    }
    if forall i | 0 < i <= |inputs| :: InOrderAt(K, inputs, i) {
      assert InOrderAt(K, inputs, 1);
      FirstInOrder(K, inputs);
      forall i | 0 < i < |inputs| ensures Harmless(K, inputs, i) {
        assert InOrderAt(K, inputs, i) && InOrderAt(K, inputs, i + 1);
        InOrderStep(K, inputs, i);
      }
    }
  }

  ghost predicate Given<B>(inputs: seq<Input<B>>, k: uint64) {
    exists i :: 0 <= i < |inputs| && inputs[i].seqNo == k
  }

  lemma GivenBefore<B>(inputs: seq<Input<B>>, n: nat, k: uint64)
    requires n <= |inputs| && Given(inputs[..n], k)
    ensures Given(inputs, k)
  {
    var i :| 0 <= i < n && inputs[..n][i].seqNo == k;
    assert inputs[i].seqNo == k;
  }

  /** Only numbers stored before or added are stored. */
  lemma {:induction false} RunStoresInputs<B>(K: uint64, st: State<B>, inputs: seq<Input<B>>)
    ensures forall k | k in RunFrom(K, st, inputs).store :: k in st.store || Given(inputs, k)
    decreases |inputs|
  {
    if inputs != [] {
      var n := |inputs| - 1;
      var mid, x := RunFrom(K, st, inputs[..n]), inputs[n];
      RunStoresInputs(K, st, inputs[..n]);
      forall k | k in mid.store[x.seqNo := x.batch] ensures k in st.store || Given(inputs, k) {
        if k == x.seqNo { assert inputs[n].seqNo == k; } else if k !in st.store { GivenBefore(inputs, n, k); }
      }
      if x.seqNo !in mid.store { AddFromStore(K, mid, x.seqNo, x.batch); }
      assert forall k | k in RunFrom(K, st, inputs).store :: k in mid.store[x.seqNo := x.batch];
    }
  }

  /** Numbers that cannot be hit: all of them from 1 on and either none within K of 2^64, or none below K. */
  ghost predicate FarFromWrap<B>(K: uint64, inputs: seq<Input<B>>) {
    && (forall i | 0 <= i < |inputs| :: inputs[i].seqNo >= 1)
    && ((forall i | 0 <= i < |inputs| :: inputs[i].seqNo + K < TWO_64) || (forall i | 0 <= i < |inputs| :: inputs[i].seqNo >= K))
  }

  /** In particular the order holds after every call when no two numbers are so far apart. */
  lemma InOrderFarFromWrap<B>(K: uint64, inputs: seq<Input<B>>)
    requires inputs != [] && FarFromWrap(K, inputs)
    ensures InOrder(Offers(inputs), inputs[0].seqNo, Run(K, inputs))
  {
    forall i | 0 < i < |inputs| ensures Harmless(K, inputs, i) {
      FarIsHarmless(K, inputs, i);
    }
    InOrderUpTo(K, inputs, |inputs|);
    assert inputs[..|inputs|] == inputs;
  }

  lemma FarIsHarmless<B>(K: uint64, inputs: seq<Input<B>>, i: nat)
    requires FarFromWrap(K, inputs) && i < |inputs|
    ensures Harmless(K, inputs, i)
  {
    var m := Stored(Run(K, inputs[..i]), inputs[i].seqNo, inputs[i].batch).store;
    RunStoresInputs(K, State(0, map[], []), inputs[..i]);
    forall k | k in m ensures 1 <= k && Given(inputs, k) {
      if k == inputs[i].seqNo { assert inputs[i].seqNo == k; } else { GivenBefore(inputs, i, k); }
    }
    forall r ensures !Hits(K, m, m.Keys, Run(K, inputs[..i]).exec, r) {
      assert r in m && Sub64(r, K) in m ==> Given(inputs, r) && Given(inputs, Sub64(r, K));
    }
  }

  lemma AddNewInOrder<B>(K: uint64, offers: map<uint64, B>, f: uint64, st: State<B>, s: uint64, b: B, st': State<B>)
    requires InOrder(offers, f, st) && s !in st.store && st.exec + 1 < TWO_64 && !WrapHit(K, Stored(st, s, b).store, st.exec)
    requires ScanResult(K, Stored(st, s, b).store.Keys, Stored(st, s, b), st')
    ensures InOrder(Offer(offers, s, b), f, st')
  {
    var m, offers' := st.store[s := b], Offer(offers, s, b);
    RunEndMaximal(m, st.exec);
    SameAbove(offers, st, s, b);
    NewEntries(m, offers, offers', f, st, st');
    NewBuffer(K, m, offers', st, st');
  }

  lemma SameAbove<B>(offers: map<uint64, B>, st: State<B>, s: uint64, b: B)
    requires Buffered(offers, st) && s !in st.store
    ensures forall k: uint64 | k > st.exec :: Lookup(st.store[s := b], k) == Lookup(Offer(offers, s, b), k)
    ensures forall k | k in st.store[s := b] :: k in Offer(offers, s, b)
  {
    forall k: uint64 | k > st.exec ensures Lookup(st.store[s := b], k) == Lookup(Offer(offers, s, b), k) {
      assert Lookup(st.store, k) == Lookup(offers, k);
    }
  }

  lemma NewBuffer<B>(K: uint64, m: map<uint64, B>, offers: map<uint64, B>, st: State<B>, st': State<B>)
    requires st.exec + 1 < TWO_64 && st'.exec == RunEnd(m, st.exec) && !WrapHit(K, m, st.exec)
    requires forall k: uint64 | k > st.exec :: Lookup(m, k) == Lookup(offers, k)
    requires forall k | k in m :: k in offers
    requires st'.exec + 1 < TWO_64 ==> st'.exec + 1 !in m
    requires forall k {:trigger k in st'.store} | k in st'.store :: k in m && st'.store[k] == m[k]
    requires forall k {:trigger k in st'.store} | k in m :: k in st'.store <==> !Dropped(K, st'.exec, m.Keys, k)
    ensures Buffered(offers, st')
  {
    forall k: uint64 | k > st'.exec ensures Lookup(st'.store, k) == Lookup(offers, k) {
      SubAdd(k, K);
      assert !Hits(K, m, m.Keys, st.exec, Add64(k, K));
      assert Lookup(st'.store, k) == Lookup(m, k);
    }
    if st'.exec + 1 < TWO_64 { assert Lookup(m, st'.exec + 1) == Lookup(offers, st'.exec + 1); }
  }

  lemma NewEntries<B>(m: map<uint64, B>, offers: map<uint64, B>, offers': map<uint64, B>, f: uint64,
                      st: State<B>, st': State<B>)
    requires Stream(offers, f, st) && st.exec <= st'.exec
    requires forall k | k in offers :: k in offers' && offers'[k] == offers[k]
    requires st'.out == st.out + Entries(m, st.exec, st'.exec)
    requires forall k: uint64 | st.exec < k <= st'.exec :: k in m && Lookup(m, k) == Lookup(offers', k)
    ensures Stream(offers', f, st')
  {
    EntriesAt(m, st.exec, st'.exec);
    forall i | 0 <= i < |st'.out|
      ensures st'.out[i] == Entry(f + i, Lookup(offers', f + i))
    {
      if i >= |st.out| {
        assert st'.out[i] == Entries(m, st.exec, st'.exec)[i - |st.out|];
      }
    }
    forall k: uint64 | f <= k <= st'.exec ensures k in offers' {
      if k > st.exec { assert Lookup(m, k).Some?; }
    }
  }

  // ---------------------------------------------------------------- the retention window

  /** Labels of the delivered entries are consecutive and end at execSeqNo. */
  ghost predicate Labelled<B>(st: State<B>) {
    && 1 <= st.exec && |st.out| <= st.exec
    && forall i | 0 <= i < |st.out| :: st.out[i].seqNo == st.exec - |st.out| + 1 + i && st.out[i].batch.Some?
  }

  /** Each of the last K delivered batches can still be fetched. */
  ghost predicate Retained<B>(K: uint64, st: State<B>) {
    forall i | 0 <= i < |st.out| && st.out[i].seqNo + K > st.exec ::
      Lookup(st.store, st.out[i].seqNo) == st.out[i].batch
  }

  /** Stored keys lie at most K below and at most K + 1 above execSeqNo, leaving out the next one. */
  ghost predicate Bounded<B>(K: uint64, st: State<B>) {
    forall k | k in st.store :: 1 <= k && st.exec < k + K && k <= st.exec + K + 1 && k != st.exec + 1
  }

  ghost predicate Window<B>(K: uint64, st: State<B>) {
    Labelled(st) && Retained(K, st) && Bounded(K, st)
  }

  lemma {:induction false} IntervalSize(s: set<uint64>, lo: int, hi: int)
    requires lo <= hi && forall k | k in s :: lo <= k < hi
    ensures |s| <= hi - lo
    decreases hi - lo
  {
    if lo < hi { IntervalSize(s - {hi - 1}, lo, hi - 1); }
    else { assert s == {}; }
  }

  /** A window holds at most 2K batches. */
  lemma WindowSize<B>(K: uint64, st: State<B>)
    requires Window(K, st)
    ensures |st.store| <= 2 * K
  {
    var below := set k | k in st.store && k <= st.exec;
    var above := set k | k in st.store && k > st.exec;
    IntervalSize(below, st.exec - K + 1, st.exec + 1);
    IntervalSize(above, st.exec + 2, st.exec + K + 2);
    assert st.store.Keys == below + above;
  }

  /** With execSeqNo + 1 missing, a scan delivers nothing, whatever it deletes. */
  lemma {:induction false} ScanIdle<B>(K: uint64, first: uint64, keys: seq<uint64>, st: State<B>)
    requires st.exec + 1 < TWO_64 && forall k | k in keys :: k != st.exec + 1
    ensures Scan(K, first, keys, st).exec == st.exec
    decreases |keys|
  {
    if keys != [] && keys[0] <= Add64(st.exec, 1) {
      assert keys[0] in keys && forall k | k in keys[1..] :: k in keys;
      ScanIdle(K, first, keys[1..], Visit(K, first, st, keys[0]));
    }
  }

  lemma AddIdle<B>(K: uint64, st: State<B>, s: uint64, b: B)
    requires 1 <= st.exec && st.exec + 1 < TWO_64 && s !in st.store && s != st.exec + 1 && st.exec + 1 !in st.store
    ensures Add(K, st, s, b).exec == st.exec
  {
    var next := Stored(st, s, b);
    var keys := Sorted(next.store.Keys);
    assert forall k | k in keys :: k in Elements(keys);
    if keys != [] { ScanIdle(K, keys[0], keys, next); }
  }

  lemma FirstWindow<B>(K: uint64, s: uint64, b: B)
    requires 1 <= s
    ensures Window(K, Add(K, State(0, map[], []), s, b))
  {
    FirstResult(K, s, b);
  }

  /** A visited key that is smaller than K drops a stored key through the wrap-around. */
  ghost predicate WindowHit<B>(K: uint64, m: map<uint64, B>, e: uint64) {
    exists r :: HitsAny(K, m, e, r)
  }

  ghost predicate HitsAny<B>(K: uint64, m: map<uint64, B>, e: uint64, r: uint64) {
    r in m && r < K && r <= RunEnd(m, e) && Sub64(r, K) in m
  }

  /** Nothing less than K below the new execSeqNo, or above it, is dropped. */
  ghost predicate KeepsInside<B>(K: uint64, m: map<uint64, B>, st': State<B>) {
    forall k | k in m && k + K > st'.exec :: k in st'.store
  }

  /** An addition above execSeqNo without a panic keeps the window and drops nothing inside it, if and only if no
      wrapped deletion hits a key; and then at most 2K batches are stored. */
  lemma WindowKept<B>(K: uint64, st: State<B>, s: uint64, b: B)
    requires Window(K, st) && s > st.exec && s !in st.store && !Panics(K, st, s, b)
    ensures var st' := Add(K, st, s, b);
            && (Window(K, st') && KeepsInside(K, Stored(st, s, b).store, st') <==> !WindowHit(K, Stored(st, s, b).store, st.exec))
            && (Window(K, st') ==> |st'.store| <= 2 * K)
  {
    var next, st' := Stored(st, s, b), Add(K, st, s, b);
    if WindowHit(K, next.store, st.exec) {
      var r :| HitsAny(K, next.store, st.exec, r);
      AddHits(K, st, s, b, r);
      assert Sub64(r, K) + K > st'.exec;
    } else {
      AddedInReach(K, st, s, b);
      assert s in next.store;
      NoneAhead(K, next.store, st.exec);
      CheckpointSpec(K, next);
      ScanKeepsWindow(K, st, s, b, st');
    }
    if Window(K, st') { WindowSize(K, st'); }
  }

  lemma NoneAhead<B>(K: uint64, m: map<uint64, B>, e: uint64)
    requires !WindowHit(K, m, e)
    ensures NothingAheadHit(K, m, m.Keys, e)
  {
    forall r ensures !Hits(K, m, m.Keys, e, r) { assert !HitsAny(K, m, e, r); }
  }

  /** A non-panicking addition lies at most K + 1 above execSeqNo. */
  lemma AddedInReach<B>(K: uint64, st: State<B>, s: uint64, b: B)
    requires Window(K, st) && s > st.exec && s !in st.store && !Panics(K, st, s, b)
    ensures s <= st.exec + K + 1
  {
    if s != st.exec + 1 {
      AddIdle(K, st, s, b);
      assert s in Stored(st, s, b).store;
      assert s <= Add64(Add64(st.exec, 1), K);
    }
  }

  /** For every K below a third of 2^64 no addition hits a key. */
  lemma NoHitForSmallK<B>(K: uint64, st: State<B>, s: uint64, b: B)
    requires 3 * K < TWO_64 && Window(K, st) && s > st.exec && s !in st.store && !Panics(K, st, s, b)
    ensures !WindowHit(K, Stored(st, s, b).store, st.exec)
  {
    AddedInReach(K, st, s, b);
  }

  lemma ScanKeepsWindow<B>(K: uint64, st: State<B>, s: uint64, b: B, st': State<B>)
    requires Window(K, st) && st.exec < s <= st.exec + K + 1 && s !in st.store
    requires ScanResult(K, Stored(st, s, b).store.Keys, Stored(st, s, b), st')
    requires !WindowHit(K, Stored(st, s, b).store, st.exec)
    ensures Window(K, st') && KeepsInside(K, Stored(st, s, b).store, st')
  {
    var m := st.store[s := b];
    RunEndMaximal(m, st.exec);
    EntriesAt(m, st.exec, st'.exec);
    assert Labelled(st');
    InsideStays(K, m, st, st');
    KeepsRetained(K, m, st, st');
    DropsOutside(K, m, st, st');
  }

  lemma InsideStays<B>(K: uint64, m: map<uint64, B>, st: State<B>, st': State<B>)
    requires st'.exec == RunEnd(m, st.exec) && !WindowHit(K, m, st.exec)
    requires forall k {:trigger k in st'.store} | k in m :: k in st'.store <==> !Dropped(K, st'.exec, m.Keys, k)
    ensures KeepsInside(K, m, st')
  {
    forall k | k in m && k + K > st'.exec ensures k in st'.store {
      SubAdd(k, K);
      assert !HitsAny(K, m, st.exec, Add64(k, K));
    }
  }

  /** What lies K or more below the new execSeqNo is dropped. */
  lemma DropsOutside<B>(K: uint64, m: map<uint64, B>, st: State<B>, st': State<B>)
    requires forall k | k in m :: 1 <= k && st.exec < k + K && k <= st.exec + K + 1
    requires st'.exec == RunEnd(m, st.exec) && (st'.exec + 1 < TWO_64 ==> st'.exec + 1 !in m)
    requires forall k: uint64 | st.exec < k <= st'.exec :: k in m
    requires forall k | k in st'.store :: k in m
    requires forall k {:trigger k in st'.store} | k in m :: k in st'.store <==> !Dropped(K, st'.exec, m.Keys, k)
    ensures Bounded(K, st')
  {
  }

  lemma KeepsRetained<B>(K: uint64, m: map<uint64, B>, st: State<B>, st': State<B>)
    requires Labelled(st) && Retained(K, st) && st.exec <= st'.exec
    requires forall k | k in st.store :: k in m && m[k] == st.store[k]
    requires st'.out == st.out + Entries(m, st.exec, st'.exec)
    requires forall k {:trigger k in st'.store} | k in st'.store :: k in m && st'.store[k] == m[k]
    requires forall k {:trigger k in st'.store} | k in m :: k + K > st'.exec ==> k in st'.store
    ensures Retained(K, st')
  {
    EntriesAt(m, st.exec, st'.exec);
    forall i | 0 <= i < |st'.out| && st'.out[i].seqNo + K > st'.exec
      ensures Lookup(st'.store, st'.out[i].seqNo) == st'.out[i].batch
    {
      if i < |st.out| {
        assert st'.out[i] == st.out[i];
        assert Lookup(st.store, st.out[i].seqNo) == st.out[i].batch;
      } else {
        assert st'.out[i] == Entries(m, st.exec, st'.exec)[i - |st.out|];
      }
    }
  }

  /** Adding at or below execSeqNo keeps the window exactly when the key is inside it
      or is deleted at once because the key K above it is still stored. */
  lemma ReAddWindow<B>(K: uint64, st: State<B>, s: uint64, b: B)
    requires Window(K, st) && 1 <= s <= st.exec && s !in st.store
    requires st.exec + 1 < TWO_64 && !WindowHit(K, Stored(st, s, b).store, st.exec)
    ensures st.exec + K + 1 < TWO_64 ==> !Panics(K, st, s, b)
    ensures Window(K, Add(K, st, s, b)) <==> st.exec < s + K || s + K in Stored(st, s, b).store
  {
    AddIdle(K, st, s, b);
    ReAddScan(K, st, s, b);
    ReAddResult(K, st, s, b, Add(K, st, s, b));
  }

  lemma ReAddScan<B>(K: uint64, st: State<B>, s: uint64, b: B)
    requires Window(K, st) && 1 <= s <= st.exec && s !in st.store
    requires st.exec + 1 < TWO_64 && !WindowHit(K, Stored(st, s, b).store, st.exec)
    ensures ScanResult(K, Stored(st, s, b).store.Keys, Stored(st, s, b), Add(K, st, s, b))
  {
    var next := Stored(st, s, b);
    assert s in next.store;
    NoneAhead(K, next.store, st.exec);
    CheckpointSpec(K, next);
  }

  lemma ReAddResult<B>(K: uint64, st: State<B>, s: uint64, b: B, st': State<B>)
    requires Window(K, st) && 1 <= s <= st.exec && s !in st.store && st'.exec == st.exec
    requires st.exec + 1 < TWO_64 && !WindowHit(K, Stored(st, s, b).store, st.exec)
    requires ScanResult(K, Stored(st, s, b).store.Keys, Stored(st, s, b), st')
    ensures Window(K, st') <==> st.exec < s + K || s + K in Stored(st, s, b).store
  {
    var m := st.store[s := b];
    assert st'.out == st.out + Entries(m, st.exec, st.exec) == st.out;
    NoWrapDrop(K, m, st);
    assert s in st'.store <==> !(s + K <= st.exec && s + K in m);
    forall k | k in st.store ensures k in st'.store && st'.store[k] == st.store[k] {
      assert k in m && !Dropped(K, st.exec, m.Keys, k);
    }
    StillRetained(K, st, st');
  }

  lemma StillRetained<B>(K: uint64, st: State<B>, st': State<B>)
    requires Labelled(st) && Retained(K, st) && st'.exec == st.exec && st'.out == st.out
    requires forall k | k in st.store :: k in st'.store && st'.store[k] == st.store[k]
    ensures Retained(K, st')
  {
    forall i | 0 <= i < |st'.out| && st'.out[i].seqNo + K > st'.exec
      ensures Lookup(st'.store, st'.out[i].seqNo) == st'.out[i].batch
    {
      assert Lookup(st.store, st.out[i].seqNo) == st.out[i].batch;
    }
  }

  lemma NoWrapDrop<B>(K: uint64, m: map<uint64, B>, st: State<B>)
    requires !WindowHit(K, m, st.exec)
    ensures forall k {:trigger Dropped(K, st.exec, m.Keys, k)} | k in m ::
              Dropped(K, st.exec, m.Keys, k) <==> k + K <= st.exec && k + K in m
  {
    forall k {:trigger Dropped(K, st.exec, m.Keys, k)} | k in m
      ensures Dropped(K, st.exec, m.Keys, k) <==> k + K <= st.exec && k + K in m
    {
      SubAdd(k, K);
      assert !HitsAny(K, m, st.exec, Add64(k, K)) && st.exec <= RunEnd(m, st.exec);
    }
  }

  /** Every addition is above execSeqNo at its time, none panics and none hits a key through the wrap-around. */
  ghost predicate Guarded<B>(K: uint64, inputs: seq<Input<B>>) {
    inputs != [] ==>
      var prev, x := inputs[..|inputs| - 1], inputs[|inputs| - 1];
      && Guarded(K, prev)
      && x.seqNo > Run(K, prev).exec
      && !Panics(K, Run(K, prev), x.seqNo, x.batch)
      && (prev != [] ==> !WindowHit(K, Stored(Run(K, prev), x.seqNo, x.batch).store, Run(K, prev).exec))
  }

  /** After every checkpoint of such a run the map holds at most 2K batches, among them each of the
      last K delivered ones. */
  lemma {:induction false} WindowOverRun<B>(K: uint64, inputs: seq<Input<B>>)
    requires inputs != [] && Guarded(K, inputs)
    ensures Window(K, Run(K, inputs)) && |Run(K, inputs).store| <= 2 * K
  {
    var prev, x := inputs[..|inputs| - 1], inputs[|inputs| - 1];
    if prev == [] {
      FirstWindow(K, x.seqNo, x.batch);
      WindowSize(K, Run(K, inputs));
    } else {
      WindowOverRun(K, prev);
      if x.seqNo !in Run(K, prev).store {
        WindowKept(K, Run(K, prev), x.seqNo, x.batch);
      }
    }
  }

  /** A run that is hit: with K = 2 the re-added key 1 makes the scan delete key 2^64 - 1,
      which was never delivered, and checkpoint() does not panic. */
  lemma WrapDropsUndelivered(b: RequestBatch)
    ensures var st := State(TWO_64 - 4, map[1 := b, TWO_64 - 4 := b], [Entry(TWO_64 - 4, Some(b))]);
            var st' := Add(2, st, TWO_64 - 1, b);
            && !Panics(2, st, TWO_64 - 1, b)
            && st'.exec == TWO_64 - 4 && TWO_64 - 1 !in st'.store
    ensures Run(2, [Input(TWO_64 - 4, b), Input(1, b)])
         == State(TWO_64 - 4, map[1 := b, TWO_64 - 4 := b], [Entry(TWO_64 - 4, Some(b))])
  {
    SmallReAdd(2, TWO_64 - 4, b);
    var z := TWO_64 - 4;
    var st := Stored(State(z, map[1 := b, z := b], [Entry(z, Some(b))]), TWO_64 - 1, b);
    assert TWO_64 - 1 in st.store;
    DropsAhead(2, z, TWO_64 - 1, st);
  }

  /** The small key 1 drops the key that 1 - K wraps to, before the scan reaches it. */
  lemma DropsAhead<B>(K: uint64, z: uint64, top: uint64, st: State<B>)
    requires 2 <= K && K + 1 < z && z + 1 < top == TWO_64 + 1 - K
    requires st.exec == z && st.store.Keys == {1, z, top}
    ensures Checkpointed(K, st) == st.(store := st.store - {top})
  {
    ThreeKeys(z, top);
    var keys := [1, z, top];
    CheckpointKeys(keys, st, K);
    assert st.(exec := StartExec(st.exec, 1)) == st;
    ScanThree(K, z, top, st);
  }

  lemma ScanThree<B>(K: uint64, z: uint64, top: uint64, st: State<B>)
    requires 2 <= K && K + 1 < z && z + 1 < top == TWO_64 + 1 - K
    requires st.exec == z && st.store.Keys == {1, z, top}
    ensures Scan(K, 1, [1, z, top], st) == st.(store := st.store - {top})
  {
    ScanCons(K, 1, 1, [z, top], st);
    assert [1] + [z, top] == [1, z, top];
    ScanLast(K, z, top, st.(store := st.store - {top}));
  }

  lemma ScanLast<B>(K: uint64, z: uint64, top: uint64, st: State<B>)
    requires 1 <= K && K + 1 < z && z + 1 < top && st.exec == z && st.store.Keys == {1, z}
    ensures Scan(K, 1, [z, top], st) == st
  {
    VisitAbsent(K, 1, st, z);
    ScanCons(K, 1, z, [top], st);
    assert [z] + [top] == [z, top];
  }

  lemma ThreeKeys(z: uint64, top: uint64)
    requires 1 < z < top
    ensures Ascending([1, z, top]) && Elements([1, z, top]) == {1, z, top}
  {
  }

  lemma VisitAbsent<B>(K: uint64, first: uint64, st: State<B>, r: uint64)
    requires r <= st.exec && st.exec + 1 < TWO_64 && Sub64(r, K) !in st.store
    ensures Visit(K, first, st, r) == st
  {
    assert st.store - {Sub64(r, K)} == st.store;
  }

  /** A run that begins with the number 0: execSeqNo is still 0 afterwards, so the next addition hands the batch on again. */
  lemma ZeroTwice(b: RequestBatch)
    ensures Run(2, [Input(0, b), Input(5, b)]).out == [Entry(0, Some(b)), Entry(0, Some(b))]
  {
    var none: State<RequestBatch> := State(0, map[], []);
    var st := Stored(none, 0, b);
    CheckpointKeys([0], st, 2);
    var one := State(0, map[0 := b], [Entry(0, Some(b))]);
    assert Visit(2, 0, st.(exec := TWO_64 - 1), 0) == one;
    ScanCons(2, 0, 0, [], st.(exec := TWO_64 - 1));
    assert [0] + [] == [0];
    RunTwo(2, Input(0, b), Input(5, b));
    ZeroAgain(b, Stored(one, 5, b));
  }

  lemma ZeroAgain(b: RequestBatch, st: State<RequestBatch>)
    requires st == State(0, map[0 := b, 5 := b], [Entry(0, Some(b))])
    ensures Checkpointed(2, st).out == [Entry(0, Some(b)), Entry(0, Some(b))]
  {
    assert Elements([0, 5]) == {0, 5};
    CheckpointKeys([0, 5], st, 2);
    ScanCons(2, 0, 0, [5], st.(exec := TWO_64 - 1));
    assert [0] + [5] == [0, 5];
  }

  lemma RunSnoc<B>(K: uint64, inputs: seq<Input<B>>, x: Input<B>)
    ensures Run(K, inputs + [x]) == Add(K, Run(K, inputs), x.seqNo, x.batch)
  {
    assert (inputs + [x])[..|inputs|] == inputs;
  }

  lemma RunOne<B>(K: uint64, x: Input<B>)
    ensures Run(K, [x]) == Add(K, State(0, map[], []), x.seqNo, x.batch)
  {
    RunSnoc(K, [], x);
    assert [] + [x] == [x];
  }

  lemma RunTwo<B>(K: uint64, x: Input<B>, y: Input<B>)
    ensures Run(K, [x, y]) == Add(K, Add(K, State(0, map[], []), x.seqNo, x.batch), y.seqNo, y.batch)
  {
    RunOne(K, x);
    RunSnoc(K, [x], y);
    assert [x] + [y] == [x, y];
  }

  lemma SmallReAdd<B>(K: uint64, z: uint64, b: B)
    requires 2 <= K && K + 1 < z && z < TWO_64 - K
    ensures Run(K, [Input(z, b), Input(1, b)]) == State(z, map[1 := b, z := b], [Entry(z, Some(b))])
  {
    RunTwo(K, Input(z, b), Input(1, b));
    FirstResult(K, z, b);
    AddSmall(K, z, b, State(z, map[z := b], [Entry(z, Some(b))]));
  }

  lemma AddSmall<B>(K: uint64, z: uint64, b: B, st: State<B>)
    requires 2 <= K && K + 1 < z && z < TWO_64 - K && st == State(z, map[z := b], [Entry(z, Some(b))])
    ensures Add(K, st, 1, b) == st.(store := map[1 := b, z := b])
  {
    var st' := Stored(st, 1, b);
    assert st'.store == map[1 := b, z := b] && st'.store.Keys == {1, z};
    ScanTwo(K, z, st');
  }

  lemma ScanTwo<B>(K: uint64, z: uint64, st: State<B>)
    requires 2 <= K && K + 1 < z < TWO_64 - K && st.exec == z && st.store.Keys == {1, z}
    ensures Checkpointed(K, st) == st
  {
    assert Elements([1, z]) == {1, z};
    CheckpointKeys([1, z], st, K);
    VisitAbsent(K, 1, st, 1);
    VisitAbsent(K, 1, st, z);
    ScanCons(K, 1, 1, [z], st);
    ScanCons(K, 1, z, [], st);
    assert [z] + [] == [z] && [1] + [z] == [1, z];
  }

  lemma ScanCons<B>(K: uint64, first: uint64, k: uint64, rest: seq<uint64>, st: State<B>)
    requires k <= Add64(st.exec, 1)
    ensures Scan(K, first, [k] + rest, st) == Scan(K, first, rest, Visit(K, first, st, k))
  {
    assert ([k] + rest)[1..] == rest;
  }

  // ---------------------------------------------------------------- lastSeqNo and verifySeqNo

  /** Neither number is more than 2^63 above the other, so that their difference is read with the right sign. */
  predicate Near(current: uint64, seqNo: uint64) {
    -TWO_63 <= seqNo - current < TWO_63
  }

  /** updateLastSeqNo and updateVerifySeqNo read the difference as a signed number: they take the larger of two near
      numbers, and the smaller of two others. */
  function Raised(current: uint64, seqNo: uint64): (r: uint64)
    ensures r == current || r == seqNo
    ensures -TWO_63 <= seqNo - current < TWO_63 ==> current <= r && seqNo <= r
    ensures !(-TWO_63 <= seqNo - current < TWO_63) ==> r <= current && r <= seqNo
  {
    if 0 < Sub64(seqNo, current) < TWO_63 then seqNo else current
  }

  /** lastSeqNo, or verifySeqNo, after these additions: a number already stored is not looked at. */
  ghost function Last<B>(K: uint64, st: State<B>, start: uint64, inputs: seq<Input<B>>): uint64 {
    if inputs == [] then start
    else
      var n := |inputs| - 1;
      var before := Last(K, st, start, inputs[..n]);
      if inputs[n].seqNo in RunFrom(K, st, inputs[..n]).store then before else Raised(before, inputs[n].seqNo)
  }

  /** `m` is the largest of `start` and all numbers added. */
  ghost predicate Largest<B>(m: uint64, start: uint64, inputs: seq<Input<B>>) {
    && start <= m && (forall i | 0 <= i < |inputs| :: inputs[i].seqNo <= m)
    && (m == start || Given(inputs, m))
  }

  /** After the first `k` additions the number is the largest so far. */
  ghost predicate LargestAt<B>(K: uint64, st: State<B>, start: uint64, inputs: seq<Input<B>>, k: nat)
    requires k <= |inputs|
  {
    Largest(Last(K, st, start, inputs[..k]), start, inputs[..k])
  }

  /** The addition number `k` is ignored or near the number at that moment. */
  ghost predicate NearAt<B>(K: uint64, st: State<B>, start: uint64, inputs: seq<Input<B>>, k: nat)
    requires k < |inputs|
  {
    inputs[k].seqNo in RunFrom(K, st, inputs[..k]).store || Near(Last(K, st, start, inputs[..k]), inputs[k].seqNo)
  }

  lemma LargestStep<B>(K: uint64, st: State<B>, start: uint64, inputs: seq<Input<B>>, k: nat)
    requires k < |inputs| && LargestAt(K, st, start, inputs, k) && forall s | s in st.store :: s <= start
    ensures LargestAt(K, st, start, inputs, k + 1) <==> NearAt(K, st, start, inputs, k)
  {
    var xs, ys := inputs[..k], inputs[..k + 1];
    assert ys[..k] == xs && ys == xs + [inputs[k]];
    RunStoresInputs(K, st, xs);
    LargestNext(Last(K, st, start, xs), start, xs, inputs[k], inputs[k].seqNo in RunFrom(K, st, xs).store);
  }

  /** One more number: an ignored one, given before or not above the start, or one that raises. */
  lemma LargestNext<B>(m: uint64, start: uint64, xs: seq<Input<B>>, x: Input<B>, ignored: bool)
    requires Largest(m, start, xs) && (ignored ==> x.seqNo <= start || Given(xs, x.seqNo))
    ensures Largest(if ignored then m else Raised(m, x.seqNo), start, xs + [x]) <==> ignored || Near(m, x.seqNo)
  {
    var ys := xs + [x];
    assert ys[|xs|] == x && forall i | 0 <= i < |xs| :: ys[i] == xs[i];
    assert Given(ys, x.seqNo);
    assert ys[..|xs|] == xs;
    if Given(xs, m) { GivenBefore(ys, |xs|, m); }
  }

  lemma {:induction false} LargestUpTo<B>(K: uint64, st: State<B>, start: uint64, inputs: seq<Input<B>>, k: nat)
    requires k <= |inputs| && forall s | s in st.store :: s <= start
    requires forall j | 0 <= j < k :: NearAt(K, st, start, inputs, j)
    ensures LargestAt(K, st, start, inputs, k)
    decreases k
  {
    if k > 0 {
      LargestUpTo(K, st, start, inputs, k - 1);
      LargestStep(K, st, start, inputs, k - 1);
    }
  }

  /** At every moment lastSeqNo is the largest of its start and all numbers added, exactly when every addition is ignored
      or near the number it meets. */
  lemma LastIsLargest<B>(K: uint64, st: State<B>, start: uint64, inputs: seq<Input<B>>)
    requires forall s | s in st.store :: s <= start
    ensures (forall k | 0 <= k <= |inputs| :: LargestAt(K, st, start, inputs, k))
            <==> (forall k | 0 <= k < |inputs| :: NearAt(K, st, start, inputs, k))
  {
    if forall k | 0 <= k < |inputs| :: NearAt(K, st, start, inputs, k) {
      forall k | 0 <= k <= |inputs| ensures LargestAt(K, st, start, inputs, k) {
        LargestUpTo(K, st, start, inputs, k);
      }
    }
    if forall k | 0 <= k <= |inputs| :: LargestAt(K, st, start, inputs, k) {
      forall k | 0 <= k < |inputs| ensures NearAt(K, st, start, inputs, k) {
        assert LargestAt(K, st, start, inputs, k) && LargestAt(K, st, start, inputs, k + 1);
        LargestStep(K, st, start, inputs, k);
      }
    }
  }

  /** The numbers added and the start lie within 2^63. */
  ghost predicate Together<B>(start: uint64, inputs: seq<Input<B>>) {
    && (forall i {:trigger Near(start, inputs[i].seqNo)} | 0 <= i < |inputs| :: Near(start, inputs[i].seqNo))
    && (forall i, j {:trigger Near(inputs[i].seqNo, inputs[j].seqNo)} | 0 <= i < |inputs| && 0 <= j < |inputs| ::
          Near(inputs[i].seqNo, inputs[j].seqNo))
  }

  lemma {:induction false} TogetherNear<B>(K: uint64, st: State<B>, start: uint64, inputs: seq<Input<B>>, k: nat)
    requires k <= |inputs| && Together(start, inputs) && forall s | s in st.store :: s <= start
    ensures LargestAt(K, st, start, inputs, k)
    decreases k
  {
    if k > 0 {
      TogetherNear(K, st, start, inputs, k - 1);
      NearNext(K, st, start, inputs, k - 1);
      LargestStep(K, st, start, inputs, k - 1);
    }
  }

  lemma NearNext<B>(K: uint64, st: State<B>, start: uint64, inputs: seq<Input<B>>, k: nat)
    requires k < |inputs| && Together(start, inputs) && LargestAt(K, st, start, inputs, k)
    ensures NearAt(K, st, start, inputs, k)
  {
    LargestIsNear(Last(K, st, start, inputs[..k]), start, inputs, k);
  }

  lemma LargestIsNear<B>(m: uint64, start: uint64, inputs: seq<Input<B>>, k: nat)
    requires k < |inputs| && Together(start, inputs) && Largest(m, start, inputs[..k])
    ensures Near(m, inputs[k].seqNo)
  {
    if m == start {
      assert Near(start, inputs[k].seqNo);
    } else {
      var i :| 0 <= i < k && inputs[..k][i].seqNo == m;
      assert Near(inputs[i].seqNo, inputs[k].seqNo);
    }
  }

  /** Numbers that lie within 2^63 of each other never move lastSeqNo back, and leave it at the largest of them. */
  lemma LastOfTogether<B>(K: uint64, st: State<B>, start: uint64, inputs: seq<Input<B>>)
    requires Together(start, inputs) && forall s | s in st.store :: s <= start
    ensures Largest(Last(K, st, start, inputs), start, inputs)
  {
    TogetherNear(K, st, start, inputs, |inputs|);
    assert inputs[..|inputs|] == inputs;
  }

  // ---------------------------------------------------------------- the code

  class CommittedStore {
    const K: uint64
    var execSeqNo: uint64
    var lastSeqNo: uint64
    var verifySeqNo: uint64
    var lastHeight: uint32
    var committedRequestBatch: map<uint64, RequestBatch>
    /** What was sent on committedRequestBatchChan, in order. */
    var delivered: seq<Entry<RequestBatch>>
    /** Sequence numbers asked for by FetchCommitted broadcasts, in order. */
    var fetched: seq<uint64>

    ghost function View(): State<RequestBatch>
      reads this
    {
      State(execSeqNo, committedRequestBatch, delivered)
    }

    constructor (K: uint64, height: uint32, lastSeqNo: uint64)
      ensures View() == State(0, map[], []) && this.K == K && fetched == []
      ensures lastHeight == height && this.lastSeqNo == lastSeqNo && verifySeqNo == 0
    {
      this.K := K;
      execSeqNo, verifySeqNo := 0, 0;
      this.lastSeqNo := lastSeqNo;
      lastHeight := height;
      committedRequestBatch, delivered, fetched := map[], [], [];
    }

    method SortedKeys() returns (keys: seq<uint64>)
      ensures Ascending(keys) && Elements(keys) == committedRequestBatch.Keys
    {
      keys := [];
      var left := committedRequestBatch.Keys;
      while left != {}
        invariant left <= committedRequestBatch.Keys && Ascending(keys)
        invariant forall k :: k in keys <==> k in committedRequestBatch && k !in left
        invariant forall i, x | 0 <= i < |keys| && x in left :: keys[i] < x
        decreases left
      {
        var m := FindSmallest(left);
        keys, left := keys + [m], left - {m};
      }
    }

    static method FindSmallest(s: set<uint64>) returns (m: uint64)
      requires s != {}
      ensures m in s && forall x | x in s :: m <= x
    {
      m :| m in s;
      var left := s - {m};
      while left != {}
        invariant m in s && forall x | x in s :: x in left || m <= x
        decreases left
      {
        var y :| y in left;
        if y in s && y < m { m := y; }
        left := left - {y};
      }
    }

    /** The loop of checkpoint(): visit the keys in order up to the first gap. */
    method ScanKeys(keys: seq<uint64>) returns (stoppedAt: nat)
      requires keys != [] && Ascending(keys)
      modifies `execSeqNo, `committedRequestBatch, `delivered
      ensures View() == Scan(K, keys[0], keys, old(View()))
      ensures stoppedAt <= |keys| && (stoppedAt < |keys| ==> keys[stoppedAt] > Add64(execSeqNo, 1))
      ensures execSeqNo + 1 < TWO_64 ==> forall j | 0 <= j < stoppedAt :: keys[j] <= execSeqNo + 1
    {
      var checkpoint := Add64(execSeqNo, 1);
      var i := 0;
      while i < |keys| && keys[i] <= checkpoint
        invariant 0 <= i <= |keys| && checkpoint == Add64(execSeqNo, 1)
        invariant execSeqNo + 1 < TWO_64 ==> forall j | 0 <= j < i :: keys[j] <= execSeqNo + 1
        invariant Scan(K, keys[0], keys, old(View())) == Scan(K, keys[0], keys[i..], View())
      {
        var seqNo := keys[i];
        assert keys[i..][0] == seqNo && keys[i..][1..] == keys[i + 1..];
        ghost var before := View();
        if seqNo < checkpoint {
          var n := Sub64(seqNo, K);
          if n >= keys[0] {
            committedRequestBatch := committedRequestBatch - {n};
          }
        } else {
          execSeqNo := checkpoint;
          delivered := delivered + [Entry(execSeqNo, Lookup(committedRequestBatch, seqNo))];
          committedRequestBatch := committedRequestBatch - {Sub64(seqNo, K)};
          checkpoint := Add64(execSeqNo, 1);
        }
        assert View() == Visit(K, keys[0], before, seqNo);
        i := i + 1;
      }
      stoppedAt := i;
    }

    /** Hands on the gap-free run above execSeqNo, asks for the missing batch when a later one is already
        here, and reports a replica that has fallen too far behind. */
    method Checkpoint() returns (panicked: bool)
      modifies `execSeqNo, `committedRequestBatch, `delivered, `fetched
      ensures View() == Checkpointed(K, old(View()))
      ensures panicked <==> FallenBehind(K, old(View()), View())
      ensures fetched == old(fetched) || fetched == old(fetched) + [Add64(execSeqNo, 1)]
      ensures execSeqNo + 1 < TWO_64 ==>
                (fetched != old(fetched) <==> exists k :: k in old(committedRequestBatch) && k > execSeqNo + 1)
    {
      var keys := SortedKeys();
      SortedUnique(keys, Sorted(committedRequestBatch.Keys));
      assert forall k :: k in keys <==> k in Elements(keys);
      if keys == [] {
        return false;
      }
      execSeqNo := StartExec(execSeqNo, keys[0]);
      var stoppedAt := ScanKeys(keys);
      if stoppedAt < |keys| {
        fetched := fetched + [Add64(execSeqNo, 1)];
      }
      panicked := keys[|keys| - 1] > Add64(Add64(execSeqNo, 1), K);
      assert forall k | k in keys :: k <= keys[|keys| - 1];
      assert keys[|keys| - 1] in old(committedRequestBatch);
      if stoppedAt < |keys| { assert keys[stoppedAt] in keys; }
    }

    /** addCommittedReqeustBatch, with `panicked` when the process would stop. A new number moves lastSeqNo and verifySeqNo
        up to it, unless they are near and above it. */
    method AddCommitted(seqNo: uint64, batch: RequestBatch) returns (panicked: bool)
      modifies this
      ensures View() == Add(K, old(View()), seqNo, batch)
      ensures panicked <==> Panics(K, old(View()), seqNo, batch)
      ensures seqNo in old(committedRequestBatch) ==> unchanged(this)
      ensures seqNo !in old(committedRequestBatch) ==>
                && lastHeight == batch.height
                && lastSeqNo == Raised(old(lastSeqNo), seqNo)
                && verifySeqNo == Raised(old(verifySeqNo), seqNo)
      ensures seqNo !in old(committedRequestBatch) && -TWO_63 <= seqNo - old(lastSeqNo) < TWO_63 ==>
                lastSeqNo == if seqNo > old(lastSeqNo) then seqNo else old(lastSeqNo)
      ensures seqNo !in old(committedRequestBatch) && -TWO_63 <= seqNo - old(verifySeqNo) < TWO_63 ==>
                verifySeqNo == if seqNo > old(verifySeqNo) then seqNo else old(verifySeqNo)
    {
      if seqNo in committedRequestBatch {
        return false;
      }
      committedRequestBatch := committedRequestBatch[seqNo := batch];
      lastHeight := batch.height;
      lastSeqNo := Raised(lastSeqNo, seqNo);
      verifySeqNo := Raised(verifySeqNo, seqNo);
      panicked := Checkpoint();
    }

    /** The loop at the top of sendViewChange: what is still queued is added before the numbers are reported. With numbers
        that lie together, above everything stored, lastSeqNo is then the largest of them. */
    method DrainCommitted(queue: seq<Input<RequestBatch>>) returns (panicked: bool, ghost taken: nat)
      modifies this
      ensures taken <= |queue| && (taken < |queue| ==> panicked)
      ensures View() == RunFrom(K, old(View()), queue[..taken])
      ensures lastSeqNo == Last(K, old(View()), old(lastSeqNo), queue[..taken])
      ensures verifySeqNo == Last(K, old(View()), old(verifySeqNo), queue[..taken])
      ensures Together(old(lastSeqNo), queue) && (forall s | s in old(committedRequestBatch) :: s <= old(lastSeqNo)) ==>
                Largest(lastSeqNo, old(lastSeqNo), queue[..taken])
    {
      var i := 0;
      panicked, taken := false, 0;
      assert queue[..0] == [];
      while i < |queue| && !panicked
        invariant 0 <= i <= |queue| && taken == i
        invariant View() == RunFrom(K, old(View()), queue[..i])
        invariant lastSeqNo == Last(K, old(View()), old(lastSeqNo), queue[..i])
        invariant verifySeqNo == Last(K, old(View()), old(verifySeqNo), queue[..i])
      {
        panicked := AddCommitted(queue[i].seqNo, queue[i].batch);
        assert queue[..i + 1][..i] == queue[..i];
        i, taken := i + 1, i + 1;
      }
      if Together(old(lastSeqNo), queue) && forall s | s in old(committedRequestBatch) :: s <= old(lastSeqNo) {
        LastOfTogether(K, old(View()), old(lastSeqNo), queue[..taken]);
      }
    }
  }
}
