/**
 * The buffered state of a smart contract: the VM process keeps a map and a queue of changes (vm/invoke.go,
 * vm/callstack.go), committing replays the queue into the node's per-contract deltas
 * (core/ledger/contract/state_extra.go, contract.go), and the deltas are persisted with the block.
 */
module ContractState {
  import opened Words
  import opened Varint
  import opened Queues

  const CONTRACT_CODE_KEY: string := "__CONTRACT_CODE_KEY__"

  datatype StateOp = PutOp(key: string, value: Bytes) | DelOp(key: string)

  /** One change, with the contract it belongs to. */
  datatype Change = Change(contract: string, op: StateOp)

  /** The column family of the database; a missing key and an empty value both read as nothing. */
  type Store = map<string, Bytes>

  function Get(db: Store, k: string): Option<Bytes> {
    if k in db then Some(db[k]) else None
  }

  function ValueOf(v: Option<Bytes>): Bytes {
    if v.Some? then v.value else []
  }

  function FullKey(contract: string, key: string): (k: string)
    ensures |k| > |contract| && k[..|contract|] == contract
  {
    contract + "|" + key
  }

  /** Keys of contracts with addresses of one length never meet. */
  lemma FullKeyInjective(a: string, b: string, key: string, key': string)
    requires |a| == |b| && FullKey(a, key) == FullKey(b, key')
    ensures a == b && key == key'
  {
    assert FullKey(a, key)[|a| + 1..] == key && FullKey(b, key')[|b| + 1..] == key';
  }

  /** With addresses of different lengths they can. */
  lemma FullKeysMeet()
    ensures FullKey("a", "b|c") == FullKey("a|b", "c")
  {
  }

  // ---- Reference: every change applied to the database at once ----

  function Direct(db: Store, c: Change): Store {
    var k := FullKey(c.contract, c.op.key);
    match c.op
    case PutOp(_, value) => db[k := value]
    case DelOp(_) => db - {k}
  }

  function DirectAll(db: Store, cs: seq<Change>): Store {
    if cs == [] then db else Direct(DirectAll(db, cs[..|cs| - 1]), cs[|cs| - 1])
  }

  // ---- The deltas ----

  datatype CacheKV = CacheKV(deleted: bool, key: string, value: Bytes)

  type Deltas = map<string, map<string, CacheKV>>

  function Entry(c: Change): CacheKV {
    CacheKV(c.op.DelOp?, FullKey(c.contract, c.op.key), if c.op.PutOp? then c.op.value else [])
  }

  /** StateExtra.set and delete. */
  function Recorded(d: Deltas, c: Change): Deltas {
    var delta := if c.contract in d then d[c.contract] else map[];
    d[c.contract := delta[FullKey(c.contract, c.op.key) := Entry(c)]]
  }

  function RecordedAll(d: Deltas, cs: seq<Change>): Deltas {
    if cs == [] then d else Recorded(RecordedAll(d, cs[..|cs| - 1]), cs[|cs| - 1])
  }

  lemma RecordedNext(d: Deltas, cs: seq<Change>, i: nat)
    requires i < |cs|
    ensures RecordedAll(d, cs[..i + 1]) == Recorded(RecordedAll(d, cs[..i]), cs[i])
  {
    assert cs[..i + 1][..i] == cs[..i];
  }

  lemma {:induction false} RecordedConcat(d: Deltas, cs: seq<Change>, more: seq<Change>)
    ensures RecordedAll(d, cs + more) == RecordedAll(RecordedAll(d, cs), more)
  {
    if more == [] {
      assert cs + more == cs;
    } else {
      RecordedConcat(d, cs, more[..|more| - 1]);
      assert (cs + more)[..|cs + more| - 1] == cs + more[..|more| - 1];
    }
  }

  /** Every entry sits under its own key. */
  ghost predicate WellKeyed(d: Deltas) {
    forall c, k | c in d && k in d[c] :: d[c][k].key == k
  }

  predicate Touched(d: Deltas, c: string, k: string) {
    c in d && k in d[c]
  }

  function Content(e: CacheKV): Option<Bytes> {
    if e.deleted then None else Some(e.value)
  }

  // ---- The last change on a key ----

  /** The last change a contract made on a full key. */
  function LastBy(cs: seq<Change>, contract: string, k: string): Option<Change> {
    if cs == [] then None
    else
      var c := cs[|cs| - 1];
      if c.contract == contract && FullKey(c.contract, c.op.key) == k then Some(c) else LastBy(cs[..|cs| - 1], contract, k)
  }

  /** The last change anybody made on a full key. */
  function LastOn(cs: seq<Change>, k: string): Option<Change> {
    if cs == [] then None
    else
      var c := cs[|cs| - 1];
      if FullKey(c.contract, c.op.key) == k then Some(c) else LastOn(cs[..|cs| - 1], k)
  }

  /** The last change on a key is the last one its contract made on it. */
  lemma {:induction false} LastOnIsLastBy(cs: seq<Change>, k: string)
    ensures LastOn(cs, k).Some? ==> LastBy(cs, LastOn(cs, k).value.contract, k) == LastOn(cs, k)
    ensures LastOn(cs, k).None? ==> forall c :: LastBy(cs, c, k).None?
    ensures LastOn(cs, k).Some? ==> FullKey(LastOn(cs, k).value.contract, LastOn(cs, k).value.op.key) == k
  {
    if cs != [] { LastOnIsLastBy(cs[..|cs| - 1], k); }
  }

  /** The deltas hold, for every contract and key, exactly its last change. */
  ghost predicate HoldsLast(d: Deltas, cs: seq<Change>) {
    forall c, k {:trigger Touched(d, c, k)} {:trigger LastBy(cs, c, k)} ::
      && (Touched(d, c, k) <==> LastBy(cs, c, k).Some?)
      && (Touched(d, c, k) ==> d[c][k] == Entry(LastBy(cs, c, k).value))
  }

  lemma {:induction false} RecordedLast(cs: seq<Change>)
    ensures WellKeyed(RecordedAll(map[], cs)) && HoldsLast(RecordedAll(map[], cs), cs)
  {
    if cs != [] {
      var before, x := cs[..|cs| - 1], cs[|cs| - 1];
      RecordedLast(before);
      RecordOne(RecordedAll(map[], before), before, x, cs);
    }
  }

  lemma RecordOne(d: Deltas, before: seq<Change>, x: Change, cs: seq<Change>)
    requires WellKeyed(d) && HoldsLast(d, before) && cs != [] && cs[..|cs| - 1] == before && cs[|cs| - 1] == x
    ensures WellKeyed(Recorded(d, x)) && HoldsLast(Recorded(d, x), cs)
  {
    var d', full := Recorded(d, x), FullKey(x.contract, x.op.key);
    forall c, k
      ensures Touched(d', c, k) <==> LastBy(cs, c, k).Some?
      ensures Touched(d', c, k) ==> d'[c][k] == Entry(LastBy(cs, c, k).value)
    {
      assert Touched(d, c, k) <==> LastBy(before, c, k).Some?;
      if !(c == x.contract && k == full) {
        assert Touched(d', c, k) <==> Touched(d, c, k);
        assert LastBy(cs, c, k) == LastBy(before, c, k);
      }
    }
  }

  /** The database with every change applied directly holds exactly the last change on every key. */
  lemma {:induction false} DirectLast(db: Store, cs: seq<Change>, k: string)
    ensures Get(DirectAll(db, cs), k) == if LastOn(cs, k).Some? then Content(Entry(LastOn(cs, k).value)) else Get(db, k)
  {
    if cs != [] { DirectLast(db, cs[..|cs| - 1], k); }
  }

  // ---- Persistence ----

  /** A write batch: the entry is put, or its key deleted. */
  function Written(db: Store, batch: seq<CacheKV>): Store {
    if batch == [] then db
    else
      var w := batch[|batch| - 1];
      var m := Written(db, batch[..|batch| - 1]);
      if w.deleted then m - {w.key} else m[w.key := w.value]
  }

  ghost predicate Has(batch: seq<CacheKV>, k: string) {
    exists i :: 0 <= i < |batch| && batch[i].key == k
  }

  /** The batch takes the entries of one contract, each of them once, in any order. */
  ghost predicate Block(delta: map<string, CacheKV>, batch: seq<CacheKV>) {
    && (forall i :: 0 <= i < |batch| ==> batch[i].key in delta && batch[i] == delta[batch[i].key])
    && (forall i, j :: 0 <= i < j < |batch| ==> batch[i].key != batch[j].key)
    && (forall k <- delta :: Has(batch, k))
  }

  /** The batch takes the blocks of these contracts one after the other. */
  ghost predicate Visits(d: Deltas, order: seq<string>, batch: seq<CacheKV>) {
    if order == [] then batch == []
    else
      var c := order[|order| - 1];
      c in d && exists m :: 0 <= m <= |batch| && Visits(d, order[..|order| - 1], batch[..m]) && Block(d[c], batch[m..])
  }

  /** Every contract with deltas once, in any order. */
  ghost predicate Order(d: Deltas, order: seq<string>) {
    (forall i, j :: 0 <= i < j < |order| ==> order[i] != order[j]) && forall c :: c in order <==> c in d
  }

  /** What the last of these contracts that has the key left there. */
  function Latest(db: Store, d: Deltas, order: seq<string>, k: string): Option<Bytes> {
    if order == [] then Get(db, k)
    else
      var c := order[|order| - 1];
      if Touched(d, c, k) then Content(d[c][k]) else Latest(db, d, order[..|order| - 1], k)
  }

  lemma {:induction false} WrittenConcat(db: Store, a: seq<CacheKV>, b: seq<CacheKV>)
    ensures Written(db, a + b) == Written(Written(db, a), b)
  {
    if b == [] {
      assert a + b == a;
    } else {
      WrittenConcat(db, a, b[..|b| - 1]);
      assert (a + b)[..|a + b| - 1] == a + b[..|b| - 1];
    }
  }

  /** Writing entries that agree with `delta`. */
  lemma {:induction false} BlockWritten(db: Store, delta: map<string, CacheKV>, batch: seq<CacheKV>, k: string)
    requires forall i :: 0 <= i < |batch| ==> batch[i].key in delta && batch[i] == delta[batch[i].key]
    ensures Get(Written(db, batch), k) == if Has(batch, k) then (if k in delta then Content(delta[k]) else None) else Get(db, k)
  {
    if batch != [] {
      var before, w := batch[..|batch| - 1], batch[|batch| - 1];
      BlockWritten(db, delta, before, k);
      if w.key == k {
        assert batch[|batch| - 1].key == k;
      } else {
        HasBefore(batch, k);
      }
    }
  }

  lemma HasBefore(batch: seq<CacheKV>, k: string)
    requires batch != [] && batch[|batch| - 1].key != k
    ensures Has(batch, k) <==> Has(batch[..|batch| - 1], k)
  {
    var before := batch[..|batch| - 1];
    if Has(before, k) {
      var i :| 0 <= i < |before| && before[i].key == k;
      assert batch[i].key == k;
    }
    if Has(batch, k) {
      var i :| 0 <= i < |batch| && batch[i].key == k;
      assert before[i].key == k;
    }
  }

  /** The batch leaves under each key what the last contract visited that has the key left there. */
  lemma {:induction false} WrittenLatest(db: Store, d: Deltas, order: seq<string>, batch: seq<CacheKV>, k: string)
    requires WellKeyed(d) && Visits(d, order, batch)
    ensures Get(Written(db, batch), k) == Latest(db, d, order, k)
    decreases |order|
  {
    if order != [] {
      var before, c := order[..|order| - 1], order[|order| - 1];
      var m :| 0 <= m <= |batch| && Visits(d, before, batch[..m]) && Block(d[c], batch[m..]);
      var head, block := batch[..m], batch[m..];
      WrittenLatest(db, d, before, head, k);
      Halves(batch, m);
      BlockOver(db, head, d[c], block, k);
    }
  }

  lemma Halves<T>(s: seq<T>, m: nat)
    requires m <= |s|
    ensures s[..m] + s[m..] == s
  {
  }

  /** A block written behind other entries. */
  lemma BlockOver(db: Store, head: seq<CacheKV>, delta: map<string, CacheKV>, block: seq<CacheKV>, k: string)
    requires Block(delta, block)
    ensures Get(Written(db, head + block), k) == if k in delta then Content(delta[k]) else Get(Written(db, head), k)
  {
    WrittenConcat(db, head, block);
    BlockWritten(Written(db, head), delta, block, k);
    BlockHas(delta, block, k);
  }

  lemma BlockHas(delta: map<string, CacheKV>, batch: seq<CacheKV>, k: string)
    requires Block(delta, batch)
    ensures Has(batch, k) <==> k in delta
  {
  }

  /** All contracts that touched a full key left the same operation on it. */
  ghost predicate Unanimous(d: Deltas) {
    forall a, b, k {:trigger Touched(d, a, k), Touched(d, b, k)} | Touched(d, a, k) && Touched(d, b, k) :: d[a][k] == d[b][k]
  }

  lemma {:induction false} LatestUnanimous(db: Store, d: Deltas, order: seq<string>, k: string, c: string)
    requires Unanimous(d) && (forall o <- order :: o in d)
    ensures Touched(d, c, k) && c in order ==> Latest(db, d, order, k) == Content(d[c][k])
    ensures (forall o <- order :: !Touched(d, o, k)) ==> Latest(db, d, order, k) == Get(db, k)
  {
    if order != [] {
      var last := order[|order| - 1];
      LatestUnanimous(db, d, order[..|order| - 1], k, c);
      assert last in order;
      if Touched(d, last, k) && Touched(d, c, k) { assert d[last][k] == d[c][k]; }
    }
  }

  /** Whatever the order of the maps, the batch leaves the database as if every change had been applied directly. */
  ghost predicate AlwaysDirect(db: Store, cs: seq<Change>) {
    forall order, batch | Order(RecordedAll(map[], cs), order) && Visits(RecordedAll(map[], cs), order, batch) ::
      Written(db, batch) == DirectAll(db, cs)
  }

  /** Persisting the deltas is applying every change directly, for every order in which the maps may be visited, if and
      only if all contracts that touched one full key left the same last operation on it. */
  lemma PersistedIsDirect(db: Store, cs: seq<Change>)
    ensures AlwaysDirect(db, cs) <==> Unanimous(RecordedAll(map[], cs))
  {
    var d := RecordedAll(map[], cs);
    RecordedLast(cs);
    if Unanimous(d) {
      forall order, batch | Order(d, order) && Visits(d, order, batch) ensures Written(db, batch) == DirectAll(db, cs) {
        UnanimousIsDirect(db, cs, order, batch);
      }
    } else {
      var a, b, k :| Touched(d, a, k) && Touched(d, b, k) && d[a][k] != d[b][k];
      if AlwaysDirect(db, cs) {
        LastOneWins(db, cs, a, k);
        LastOneWins(db, cs, b, k);
      }
    }
  }

  lemma UnanimousIsDirect(db: Store, cs: seq<Change>, order: seq<string>, batch: seq<CacheKV>)
    requires var d := RecordedAll(map[], cs); Unanimous(d) && Order(d, order) && Visits(d, order, batch)
    ensures Written(db, batch) == DirectAll(db, cs)
  {
    var d := RecordedAll(map[], cs);
    RecordedLast(cs);
    forall k ensures Get(Written(db, batch), k) == Get(DirectAll(db, cs), k) {
      WrittenLatest(db, d, order, batch, k);
      DirectLast(db, cs, k);
      LastOnIsLastBy(cs, k);
      if LastOn(cs, k).Some? {
        var c := LastOn(cs, k).value.contract;
        assert Touched(d, c, k);
        LatestUnanimous(db, d, order, k, c);
      } else {
        forall o <- order ensures !Touched(d, o, k) { assert LastBy(cs, o, k).None?; }
        LatestUnanimous(db, d, order, k, "");
      }
    }
    SameStore(Written(db, batch), DirectAll(db, cs));
  }

  lemma SameStore(a: Store, b: Store)
    requires forall k :: Get(a, k) == Get(b, k)
    ensures a == b
  {
    forall k ensures k in a <==> k in b { assert Get(a, k) == Get(b, k); }
    forall k | k in a ensures a[k] == b[k] { assert Get(a, k) == Get(b, k); }
  }

  /** If every order gives the direct result, then so does one that visits `c` last. */
  lemma LastOneWins(db: Store, cs: seq<Change>, c: string, k: string)
    requires AlwaysDirect(db, cs) && Touched(RecordedAll(map[], cs), c, k)
    ensures Get(DirectAll(db, cs), k) == Content(RecordedAll(map[], cs)[c][k])
  {
    var d := RecordedAll(map[], cs);
    RecordedLast(cs);
    var first := Listed(d.Keys - {c});
    var order := first + [c];
    assert order[..|order| - 1] == first;
    assert Order(d, order);
    var batch := BatchOf(d, order);
    WrittenLatest(db, d, order, batch, k);
    assert Written(db, batch) == DirectAll(db, cs);
  }

  lemma {:induction false} Listed(s: set<string>) returns (l: seq<string>)
    ensures (forall c :: c in l <==> c in s) && forall i, j :: 0 <= i < j < |l| ==> l[i] != l[j]
    decreases |s|
  {
    if s == {} {
      l := [];
    } else {
      var c :| c in s;
      var rest := Listed(s - {c});
      l := rest + [c];
    }
  }

  lemma BlockOf(delta: map<string, CacheKV>) returns (batch: seq<CacheKV>)
    requires forall k <- delta :: delta[k].key == k
    ensures Block(delta, batch)
  {
    var l := Listed(delta.Keys);
    batch := seq(|l|, i requires 0 <= i < |l| => assert l[i] in l; delta[l[i]]);
    forall k <- delta ensures Has(batch, k) {
      assert k in l;
      var i :| 0 <= i < |l| && l[i] == k;
      assert batch[i].key == k;
    }
    forall i, j | 0 <= i < j < |batch| ensures batch[i].key != batch[j].key {
      assert l[i] in l && l[j] in l;
    }
  }

  lemma {:induction false} BatchOf(d: Deltas, order: seq<string>) returns (batch: seq<CacheKV>)
    requires WellKeyed(d) && forall c <- order :: c in d
    ensures Visits(d, order, batch)
    decreases |order|
  {
    if order == [] {
      batch := [];
    } else {
      var before, c := order[..|order| - 1], order[|order| - 1];
      var head := BatchOf(d, before);
      var block := BlockOf(d[c]);
      batch := head + block;
      VisitsNext(d, before, c, head, block, order, batch);
    }
  }

  lemma VisitsNext(d: Deltas, before: seq<string>, c: string, head: seq<CacheKV>, block: seq<CacheKV>,
                   order: seq<string>, batch: seq<CacheKV>)
    requires c in d && Visits(d, before, head) && Block(d[c], block) && order == before + [c] && batch == head + block
    ensures Visits(d, order, batch)
  {
    assert order[..|order| - 1] == before;
    assert batch[..|head|] == head && batch[|head|..] == block;
  }

  /** Contracts with addresses of one length never meet, so they are always unanimous. */
  lemma OneLengthUnanimous(cs: seq<Change>, n: nat)
    requires forall c <- cs :: |c.contract| == n
    ensures Unanimous(RecordedAll(map[], cs))
  {
    var d := RecordedAll(map[], cs);
    RecordedLast(cs);
    forall a, b, k | Touched(d, a, k) && Touched(d, b, k) ensures d[a][k] == d[b][k] {
      assert LastBy(cs, a, k).Some? && LastBy(cs, b, k).Some?;
      LastByMember(cs, a, k);
      LastByMember(cs, b, k);
    }
  }

  lemma {:induction false} LastByMember(cs: seq<Change>, contract: string, k: string)
    requires LastBy(cs, contract, k).Some?
    ensures LastBy(cs, contract, k).value in cs && LastBy(cs, contract, k).value.contract == contract
    ensures |contract| < |k| && k[..|contract|] == contract
  {
    var c := cs[|cs| - 1];
    if !(c.contract == contract && FullKey(c.contract, c.op.key) == k) { LastByMember(cs[..|cs| - 1], contract, k); }
  }

  lemma TwoRecorded(x: Change, y: Change)
    requires x.contract != y.contract && FullKey(x.contract, x.op.key) == FullKey(y.contract, y.op.key)
    ensures var k := FullKey(x.contract, x.op.key);
            RecordedAll(map[], [x, y]) == map[x.contract := map[k := Entry(x)], y.contract := map[k := Entry(y)]]
  {
    var none: Deltas := map[];
    assert [x, y][..1] == [x] && [x][..0] == [];
    assert RecordedAll(none, [x]) == Recorded(none, x);
    assert RecordedAll(none, [x, y]) == Recorded(Recorded(none, x), y);
  }

  lemma OneBlock(k: string, e: CacheKV)
    requires e.key == k
    ensures Block(map[k := e], [e])
  {
    assert [e][0].key == k;
  }

  /** Two contracts that meet on a full key, visited in the other order. */
  lemma OtherOrder(d: Deltas, a: string, b: string, k: string, one: CacheKV, two: CacheKV)
    requires a != b && one.key == k && two.key == k && d == map[a := map[k := one], b := map[k := two]]
    ensures Order(d, [b, a]) && Visits(d, [b, a], [two, one])
  {
    OneBlock(k, one);
    OneBlock(k, two);
    assert Visits(d, [], []);
    VisitsNext(d, [], b, [], [two], [b], [two]);
    VisitsNext(d, [b], a, [two], [one], [b, a], [two, one]);
  }

  lemma TwoWritten(db: Store, k: string, v: Bytes, w: Bytes)
    ensures Written(db, [CacheKV(false, k, w), CacheKV(false, k, v)]) == db[k := v]
  {
    var one, two := CacheKV(false, k, v), CacheKV(false, k, w);
    assert [two, one][..1] == [two] && [two][..0] == [];
    assert Written(db, [two]) == db[k := w];
    assert db[k := w][k := v] == db[k := v];
  }

  /** Whenever two contracts put different values under one full key, the order of the maps decides what is persisted. */
  lemma OrderDecides(db: Store, a: string, b: string, x: string, y: string, v: Bytes, w: Bytes)
    requires a != b && FullKey(a, x) == FullKey(b, y)
    ensures var cs, k := [Change(a, PutOp(x, v)), Change(b, PutOp(y, w))], FullKey(a, x);
            var batch := [CacheKV(false, k, w), CacheKV(false, k, v)];
            && Order(RecordedAll(map[], cs), [b, a]) && Visits(RecordedAll(map[], cs), [b, a], batch)
            && Written(db, batch) == db[k := v] && DirectAll(db, cs) == db[k := w]
  {
    var k, p, q := FullKey(a, x), Change(a, PutOp(x, v)), Change(b, PutOp(y, w));
    TwoRecorded(p, q);
    OtherOrder(RecordedAll(map[], [p, q]), a, b, k, Entry(p), Entry(q));
    TwoWritten(db, k, v, w);
    assert [p, q][..1] == [p] && [p][..0] == [];
    assert DirectAll(db, [p]) == db[k := v];
    assert db[k := v][k := w] == db[k := w];
  }

  /** For instance the contracts "a" and "a|b". */
  lemma PersistedByChance()
    ensures var cs := [Change("a", PutOp("b|c", [1])), Change("a|b", PutOp("c", [2]))];
            !AlwaysDirect(map[], cs)
  {
    FullKeysMeet();
    var db: Store := map[];
    var k := FullKey("a", "b|c");
    OrderDecides(db, "a", "a|b", "b|c", "c", [1], [2]);
    assert db[k := [1]][k] != db[k := [2]][k];
  }

  // ---- Reading through the node's deltas ----

  /** SmartConstract.GetState: an empty answer from the deltas falls through to the database. */
  function NodeRead(db: Store, d: Deltas, contract: string, key: string): Bytes {
    var k := FullKey(contract, key);
    var cached := if Touched(d, contract, k) then ValueOf(Content(d[contract][k])) else [];
    if cached == [] then ValueOf(Get(db, k)) else cached
  }

  /** The bytes a change leaves to a reader. */
  function Left(c: Option<Change>): Bytes {
    if c.Some? && c.value.op.PutOp? then c.value.op.value else []
  }

  /** What the node can see of a key: the contract's own last value, and the database where that is empty. */
  function Visible(db: Store, own: Option<Change>, k: string): Bytes {
    if Left(own) != [] then Left(own) else ValueOf(Get(db, k))
  }

  /** The node reads the latest value if and only if the last change on the key is the contract's own and does not hide,
      by deleting or emptying it, a value still in the database, or it is another contract's and happens to leave what the
      node can see. */
  lemma NodeReadExact(db: Store, cs: seq<Change>, contract: string, key: string)
    ensures var k := FullKey(contract, key);
            var last := LastOn(cs, k);
            NodeRead(db, RecordedAll(map[], cs), contract, key) == ValueOf(Get(DirectAll(db, cs), k))
            <==> (last.Some? ==>
                    if last.value.contract == contract then !(Left(last) == [] && ValueOf(Get(db, k)) != [])
                    else Left(last) == Visible(db, LastBy(cs, contract, k), k))
  {
    var d, k := RecordedAll(map[], cs), FullKey(contract, key);
    RecordedLast(cs);
    DirectLast(db, cs, k);
    LastOnIsLastBy(cs, k);
    assert Touched(d, contract, k) <==> LastBy(cs, contract, k).Some?;
  }

  /** A key deleted in this block still reads as its old value. */
  lemma DeletedKeyStillRead()
    ensures var db: Store := map["c|k" := [1]];
            NodeRead(db, RecordedAll(map[], [Change("c", DelOp("k"))]), "c", "k") == [1]
  {
    var db: Store := map["c|k" := [1]];
    assert FullKey("c", "k") == "c|k";
    var cs := [Change("c", DelOp("k"))];
    assert cs[..0] == [];
    assert RecordedAll(map[], cs) == Recorded(map[], cs[0]);
  }

  // ---- The last operation on a key ----

  function LastValue(ops: seq<StateOp>, key: string): Option<Bytes> {
    if ops == [] then None
    else
      var op := ops[|ops| - 1];
      if op.key == key then Some(if op.PutOp? then op.value else []) else LastValue(ops[..|ops| - 1], key)
  }

  function Changes(contract: string, ops: seq<StateOp>): (cs: seq<Change>)
    ensures |cs| == |ops| && forall i :: 0 <= i < |ops| ==> cs[i] == Change(contract, ops[i])
  {
    seq(|ops|, i requires 0 <= i < |ops| => Change(contract, ops[i]))
  }

  lemma {:induction false} DirectConcat(db: Store, cs: seq<Change>, more: seq<Change>)
    ensures DirectAll(db, cs + more) == DirectAll(DirectAll(db, cs), more)
  {
    if more == [] {
      assert cs + more == cs;
    } else {
      DirectConcat(db, cs, more[..|more| - 1]);
      assert (cs + more)[..|cs + more| - 1] == cs + more[..|more| - 1];
    }
  }

  lemma {:induction false} RunDirect(db: Store, contract: string, ops: seq<StateOp>, key: string)
    ensures var after := ValueOf(Get(DirectAll(db, Changes(contract, ops)), FullKey(contract, key)));
            after == if LastValue(ops, key).Some? then LastValue(ops, key).value else ValueOf(Get(db, FullKey(contract, key)))
  {
    if ops != [] {
      var before, op := ops[..|ops| - 1], ops[|ops| - 1];
      RunDirect(db, contract, before, key);
      var cs := Changes(contract, ops);
      assert cs[..|cs| - 1] == Changes(contract, before) && cs[|cs| - 1] == Change(contract, op);
      if op.key != key && FullKey(contract, op.key) == FullKey(contract, key) {
        FullKeyInjective(contract, contract, op.key, key);
      }
    }
  }

  /** CCallGetState while a contract runs over the earlier changes of the block. */
  function VmRead(db: Store, earlier: seq<Change>, contract: string, ops: seq<StateOp>, key: string): Bytes {
    if LastValue(ops, key).Some? then LastValue(ops, key).value
    else NodeRead(db, RecordedAll(map[], earlier), contract, key)
  }

  /** What the VM process reads while a contract runs, over any earlier changes of the block, is what the database holds
      once all changes are applied, if and only if the contract wrote the key in this run or the node's own answer is
      right; and committing the run adds its changes to the deltas of the block. */
  lemma BufferAnnouncesDirect(db: Store, earlier: seq<Change>, contract: string, ops: seq<StateOp>, key: string)
    ensures var k, all := FullKey(contract, key), earlier + Changes(contract, ops);
            && RecordedAll(map[], all) == RecordedAll(RecordedAll(map[], earlier), Changes(contract, ops))
            && (VmRead(db, earlier, contract, ops, key) == ValueOf(Get(DirectAll(db, all), k))
                <==> LastValue(ops, key).Some?
                     || NodeRead(db, RecordedAll(map[], earlier), contract, key) == ValueOf(Get(DirectAll(db, earlier), k)))
  {
    RecordedConcat(map[], earlier, Changes(contract, ops));
    DirectConcat(db, earlier, Changes(contract, ops));
    RunDirect(DirectAll(db, earlier), contract, ops, key);
  }

  // ---- The node's side ----

  class SmartContract {
    var db: Store
    var deltas: Deltas
    var scAddr: string

    constructor (stored: Store)
      ensures Valid() && db == stored && deltas == map[]
    {
      db, deltas, scAddr := stored, map[], "";
    }

    ghost predicate Valid()
      reads this
    {
      WellKeyed(deltas)
    }

    method AddState(key: string, value: Bytes)
      requires Valid()
      modifies `deltas
      ensures Valid() && deltas == Recorded(old(deltas), Change(scAddr, PutOp(key, value)))
    {
      var delta := if scAddr in deltas then deltas[scAddr] else map[];
      var k := FullKey(scAddr, key);
      deltas := deltas[scAddr := delta[k := CacheKV(false, k, value)]];
    }

    method DelState(key: string)
      requires Valid()
      modifies `deltas
      ensures Valid() && deltas == Recorded(old(deltas), Change(scAddr, DelOp(key)))
    {
      var delta := if scAddr in deltas then deltas[scAddr] else map[];
      var k := FullKey(scAddr, key);
      deltas := deltas[scAddr := delta[k := CacheKV(true, k, [])]];
    }

    /** The PutState and DelState requests of the VM process. */
    method Receive(op: StateOp)
      requires Valid()
      modifies `deltas
      ensures Valid() && deltas == Recorded(old(deltas), Change(scAddr, op))
    {
      if op.PutOp? { AddState(op.key, op.value); } else { DelState(op.key); }
    }

    /** An error exactly when the deltas give nothing and the database fails, as it does for the keys in `broken`. */
    method GetState(key: string, broken: set<string>) returns (value: Option<Bytes>)
      ensures value.None? <==> FullKey(scAddr, key) in broken && NodeRead(map[], deltas, scAddr, key) == []
      ensures value.Some? ==> value.value == NodeRead(db, deltas, scAddr, key)
    {
      var k := FullKey(scAddr, key);
      var cached := [];
      if scAddr in deltas && k in deltas[scAddr] && !deltas[scAddr][k].deleted { cached := deltas[scAddr][k].value; }
      if |cached| == 0 {
        if k in broken { return None; }
        if k in db { cached := db[k]; }
      }
      value := Some(cached);
    }

    /** AddChangesForPersistence visits both maps in an arbitrary order and takes every entry once. */
    method AddChangesForPersistence() returns (batch: seq<CacheKV>)
      requires Valid()
      ensures exists order :: Order(deltas, order) && Visits(deltas, order, batch)
    {
      ghost var order: seq<string> := [];
      batch := [];
      var contracts := deltas.Keys;
      while contracts != {}
        invariant contracts <= deltas.Keys && Visits(deltas, order, batch)
        invariant forall c :: c in order <==> c in deltas && c !in contracts
        invariant forall i, j :: 0 <= i < j < |order| ==> order[i] != order[j]
      {
        var c :| c in contracts;
        var taken := TakeAll(c);
        VisitsNext(deltas, order, c, batch, taken, order + [c], batch + taken);
        assert c !in order;
        batch, order := batch + taken, order + [c];
        contracts := contracts - {c};
      }
    }

    method TakeAll(c: string) returns (batch: seq<CacheKV>)
      requires Valid() && c in deltas
      ensures Block(deltas[c], batch)
    {
      batch := [];
      var keys := deltas[c].Keys;
      while keys != {}
        invariant keys <= deltas[c].Keys
        invariant forall i :: 0 <= i < |batch| ==> batch[i].key in deltas[c] && batch[i].key !in keys && batch[i] == deltas[c][batch[i].key]
        invariant forall i, j :: 0 <= i < j < |batch| ==> batch[i].key != batch[j].key
        invariant forall k :: k in deltas[c] && k !in keys ==> Has(batch, k)
      {
        var k :| k in keys;
        ghost var before := batch;
        batch := batch + [deltas[c][k]];
        HasAppended(before, deltas[c][k]);
        keys := keys - {k};
      }
    }
  }

  lemma HasAppended(batch: seq<CacheKV>, e: CacheKV)
    ensures Has(batch + [e], e.key) && forall k :: Has(batch, k) ==> Has(batch + [e], k)
  {
    var all := batch + [e];
    assert all[|batch|].key == e.key;
    forall k | Has(batch, k) ensures Has(all, k) {
      var i :| 0 <= i < |batch| && batch[i].key == k;
      assert all[i].key == k;
    }
  }

  // ---- The VM process ----

  class VmState {
    const maxKey: nat
    const maxValue: nat
    var stateMap: map<string, Bytes>
    const queue: Fifo<StateOp>
    ghost var history: seq<StateOp>

    /** The map answers with the last operation on each key. */
    ghost predicate Valid()
      reads this
    {
      forall key :: LastValue(history, key) == if key in stateMap then Some(stateMap[key]) else None
    }

    constructor (maxKey: nat, maxValue: nat)
      ensures Valid() && history == [] && fresh(queue) && queue.Contents() == []
      ensures this.maxKey == maxKey && this.maxValue == maxValue
    {
      this.maxKey, this.maxValue := maxKey, maxValue;
      stateMap, history := map[], [];
      queue := new Fifo();
    }

    /** CCallGetState: the last operation of this run, else the node's answer. */
    method CCallGetState(key: string, node: Bytes) returns (r: Option<Bytes>)
      requires Valid()
      ensures r.None? <==> key == "__CONTRACT_CODE_KEY__" || |key| > maxKey
      ensures r.Some? ==> r.value == if LastValue(history, key).Some? then LastValue(history, key).value else node
    {
      if key == CONTRACT_CODE_KEY || |key| > maxKey { return None; }
      if key in stateMap { return Some(stateMap[key]); }
      r := Some(node);
    }

    method CCallPutState(key: string, value: Bytes) returns (ok: bool)
      requires Valid()
      modifies this, queue
      ensures Valid()
      ensures ok <==> key != "__CONTRACT_CODE_KEY__" && |key| <= maxKey && |value| <= maxValue
      ensures ok ==> history == old(history) + [PutOp(key, value)] && queue.Contents() == old(queue.Contents()) + [PutOp(key, value)]
      ensures !ok ==> unchanged(this) && unchanged(queue)
    {
      if key == CONTRACT_CODE_KEY || |key| > maxKey || |value| > maxValue { return false; }
      stateMap := stateMap[key := value];
      queue.Offer(PutOp(key, value));
      history := history + [PutOp(key, value)];
      assert history[..|history| - 1] == old(history);
      ok := true;
    }

    method CCallDelState(key: string) returns (ok: bool)
      requires Valid()
      modifies this, queue
      ensures Valid()
      ensures ok <==> key != "__CONTRACT_CODE_KEY__" && |key| <= maxKey
      ensures ok ==> history == old(history) + [DelOp(key)] && queue.Contents() == old(queue.Contents()) + [DelOp(key)]
      ensures !ok ==> unchanged(this) && unchanged(queue)
    {
      if key == CONTRACT_CODE_KEY || |key| > maxKey { return false; }
      stateMap := stateMap[key := []];
      queue.Offer(DelOp(key));
      history := history + [DelOp(key)];
      assert history[..|history| - 1] == old(history);
      ok := true;
    }

    /** The state half of CCallCommit: the queue is drained, oldest first, into the node's deltas. The request with number
        `failAt`, if there are so many, fails: what was sent before it stays with the node, it is lost, and the rest stays
        queued. */
    method CCallCommit(node: SmartContract, failAt: nat) returns (ok: bool)
      requires node.Valid()
      modifies queue, node`deltas
      ensures node.Valid() && (ok <==> failAt >= |old(queue.Contents())|)
      ensures queue.Contents() == if ok then [] else old(queue.Contents())[failAt + 1..]
      ensures var sent := if ok then old(queue.Contents()) else old(queue.Contents())[..failAt];
              node.deltas == RecordedAll(old(node.deltas), Changes(node.scAddr, sent))
    {
      ghost var all := queue.Contents();
      ghost var cs := Changes(node.scAddr, all);
      var i, more := 0, true;
      ok := false;
      while more
        invariant i <= |all| && i <= failAt && node.Valid() && queue.Contents() == all[i..]
        invariant !more ==> i == |all|
        invariant node.deltas == RecordedAll(old(node.deltas), cs[..i])
        decreases |all| - i, more
      {
        assert i < |all| ==> all[i..][1..] == all[i + 1..];
        var op := queue.Poll();
        if op.None? {
          more := false;
        } else if i == failAt {
          assert cs[..i] == Changes(node.scAddr, all[..i]);
          return;
        } else {
          node.Receive(op.value);
          RecordedNext(old(node.deltas), cs, i);
          i := i + 1;
        }
      }
      ok := true;
      assert cs[..i] == cs;
    }
  }
}
