/**
 * Netting of cross-chain transactions (core/merge/merge.go): opposite flows between two chains are
 * subtracted and one merged transaction per pair of chains is left.
 */
module Netting {

  const SEPARATOR: char := '|'

  datatype Flow = Flow(from: string, to: string, amount: int, hash: nat)

  datatype Entry = Entry(amount: int, hashes: seq<nat>)

  type Table = map<string, Entry>

  // ---- Keys ----

  /** Chain coordinates are hexadecimal. */
  predicate Plain(chain: string) {
    SEPARATOR !in chain
  }

  function Key(from: string, to: string): string {
    from + [SEPARATOR] + to
  }

  /** The part before the first separator. */
  function Before(key: string): string {
    if key == [] || key[0] == SEPARATOR then [] else [key[0]] + Before(key[1..])
  }

  lemma {:induction false} BeforeKey(from: string, to: string)
    requires Plain(from)
    ensures Before(Key(from, to)) == from
  {
    if from != [] {
      BeforeKey(from[1..], to);
      assert Key(from, to)[1..] == Key(from[1..], to);
      assert Plain(from[1..]);
    }
  }

  lemma KeyInjective(a: string, b: string, c: string, d: string)
    requires Plain(a) && Plain(c) && Key(a, b) == Key(c, d)
    ensures a == c && b == d
  {
    BeforeKey(a, b);
    BeforeKey(c, d);
    assert Key(a, b)[|a| + 1..] == b && Key(c, d)[|c| + 1..] == d;
  }

  // ---- Accumulation ----

  function Noted(e: Entry, amount: int, hash: nat): Entry {
    Entry(e.amount + amount, e.hashes + [hash])
  }

  function Absorbed(m: Table, f: Flow): Table {
    var key, back := Key(f.from, f.to), Key(f.to, f.from);
    if key in m then m[key := Noted(m[key], f.amount, f.hash)]
    else if back in m then m[back := Noted(m[back], -f.amount, f.hash)]
    else m[key := Entry(f.amount, [f.hash])]
  }

  function Netted(flows: seq<Flow>): Table {
    if flows == [] then map[] else Absorbed(Netted(flows[..|flows| - 1]), flows[|flows| - 1])
  }

  // ---- What is preserved ----

  predicate Joins(f: Flow, a: string, b: string) {
    (f.from == a && f.to == b) || (f.from == b && f.to == a)
  }

  /** What one flow moves from a to b; the way back counts negative. */
  function Moves(f: Flow, a: string, b: string): int {
    (if f.from == a && f.to == b then f.amount else 0) - (if f.from == b && f.to == a then f.amount else 0)
  }

  function Net(flows: seq<Flow>, a: string, b: string): int {
    if flows == [] then 0 else Net(flows[..|flows| - 1], a, b) + Moves(flows[|flows| - 1], a, b)
  }

  /** The hashes of the flows between a and b, in order. */
  function Between(flows: seq<Flow>, a: string, b: string): seq<nat> {
    if flows == [] then []
    else
      var f := flows[|flows| - 1];
      Between(flows[..|flows| - 1], a, b) + if Joins(f, a, b) then [f.hash] else []
  }

  lemma {:induction false} BetweenSymmetric(flows: seq<Flow>, a: string, b: string)
    ensures Between(flows, a, b) == Between(flows, b, a)
  {
    if flows != [] { BetweenSymmetric(flows[..|flows| - 1], a, b); }
  }

  function Amount(m: Table, key: string): int {
    if key in m then m[key].amount else 0
  }

  /** The table says this about the pair of chains a, b. */
  ghost predicate Right(m: Table, flows: seq<Flow>, a: string, b: string) {
    && Amount(m, Key(a, b)) - Amount(m, Key(b, a)) == Net(flows, a, b)
    && (a != b ==> !(Key(a, b) in m && Key(b, a) in m))
    && (Key(a, b) in m || Key(b, a) in m <==> Between(flows, a, b) != [])
    && (Key(a, b) in m ==> m[Key(a, b)].hashes == Between(flows, a, b))
    && (Key(b, a) in m ==> m[Key(b, a)].hashes == Between(flows, a, b))
  }

  lemma AbsorbStep(m: Table, flows: seq<Flow>, f: Flow, a: string, b: string)
    requires Plain(a) && Plain(b) && Plain(f.from) && Plain(f.to) && Right(m, flows, a, b)
    ensures Right(Absorbed(m, f), flows + [f], a, b)
  {
    assert (flows + [f])[..|flows|] == flows;
    Apart(f, a, b);
  }

  /** Keys of different pairs never meet. */
  lemma Apart(f: Flow, a: string, b: string)
    requires Plain(a) && Plain(b) && Plain(f.from) && Plain(f.to)
    ensures Key(f.from, f.to) == Key(a, b) <==> f.from == a && f.to == b
    ensures Key(f.from, f.to) == Key(b, a) <==> f.from == b && f.to == a
    ensures Key(f.to, f.from) == Key(a, b) <==> f.to == a && f.from == b
    ensures Key(f.to, f.from) == Key(b, a) <==> f.to == b && f.from == a
    ensures Key(a, b) == Key(b, a) <==> a == b
  {
    if Key(f.from, f.to) == Key(a, b) { KeyInjective(f.from, f.to, a, b); }
    if Key(f.from, f.to) == Key(b, a) { KeyInjective(f.from, f.to, b, a); }
    if Key(f.to, f.from) == Key(a, b) { KeyInjective(f.to, f.from, a, b); }
    if Key(f.to, f.from) == Key(b, a) { KeyInjective(f.to, f.from, b, a); }
    if Key(a, b) == Key(b, a) { KeyInjective(a, b, b, a); }
  }

  /** For every pair of chains the table keeps the net amount in one entry and records the hash of each flow
      between them there, once and in order. */
  lemma {:induction false} NettedRight(flows: seq<Flow>, a: string, b: string)
    requires Plain(a) && Plain(b) && forall f <- flows :: Plain(f.from) && Plain(f.to)
    ensures Right(Netted(flows), flows, a, b)
  {
    if flows != [] {
      var before, f := flows[..|flows| - 1], flows[|flows| - 1];
      NettedRight(before, a, b);
      AbsorbStep(Netted(before), before, f, a, b);
      assert flows == before + [f];
    }
  }

  // ---- The merged transactions ----

  /** The part behind the first separator. */
  function Behind(key: string): string {
    if key == [] then [] else if key[0] == SEPARATOR then key[1..] else Behind(key[1..])
  }

  lemma {:induction false} BehindKey(from: string, to: string)
    requires Plain(from)
    ensures Behind(Key(from, to)) == to
  {
    if from == [] {
      assert Key(from, to)[1..] == to;
    } else {
      BehindKey(from[1..], to);
      assert Key(from, to)[1..] == Key(from[1..], to);
      assert Plain(from[1..]);
    }
  }

  ghost predicate GoodKey(key: string) {
    Plain(Before(key)) && Plain(Behind(key)) && key == Key(Before(key), Behind(key))
  }

  lemma KeysGood(a: string, b: string)
    requires Plain(a) && Plain(b)
    ensures GoodKey(Key(a, b)) && Before(Key(a, b)) == a && Behind(Key(a, b)) == b
  {
    BeforeKey(a, b);
    BehindKey(a, b);
  }

  lemma {:induction false} NettedKeys(flows: seq<Flow>)
    requires forall f <- flows :: Plain(f.from) && Plain(f.to)
    ensures forall key <- Netted(flows) :: GoodKey(key)
  {
    if flows != [] {
      NettedKeys(flows[..|flows| - 1]);
      var f := flows[|flows| - 1];
      KeysGood(f.from, f.to);
    }
  }

  datatype Merged = Merged(from: string, to: string, amount: int, hashes: seq<nat>) {
    function AsFlow(): Flow { Flow(from, to, amount, 0) }
  }

  /** A negative net amount turns the direction. */
  function MergedOf(key: string, e: Entry): Merged {
    if e.amount < 0 then Merged(Behind(key), Before(key), -e.amount, e.hashes)
    else Merged(Before(key), Behind(key), e.amount, e.hashes)
  }

  function AsFlows(out: seq<Merged>): (r: seq<Flow>)
    ensures |r| == |out|
  {
    seq(|out|, i requires 0 <= i < |out| => out[i].AsFlow())
  }

  function Signed(m: Table, a: string, b: string): int {
    Amount(m, Key(a, b)) - Amount(m, Key(b, a))
  }

  /** Turning an entry into a transaction moves its amount from the table to the result. */
  lemma EmitStep(m: Table, key: string, out: seq<Merged>, a: string, b: string)
    requires key in m && GoodKey(key) && Plain(a) && Plain(b)
    ensures Net(AsFlows(out + [MergedOf(key, m[key])]), a, b) + Signed(m - {key}, a, b)
         == Net(AsFlows(out), a, b) + Signed(m, a, b)
  {
    var t := MergedOf(key, m[key]);
    var flows := AsFlows(out + [t]);
    assert flows[..|out|] == AsFlows(out) && flows[|out|] == t.AsFlow();
    Apart(t.AsFlow(), a, b);
  }

  /** The result is right for the flows: amounts are not negative, each transaction records exactly the
      flows between its chains, there is one per pair of chains and one for every pair with flows. */
  ghost predicate Sound(out: seq<Merged>, flows: seq<Flow>) {
    && (forall i :: 0 <= i < |out| ==> out[i].amount >= 0 && out[i].hashes == Between(flows, out[i].from, out[i].to))
    && (forall i, j :: 0 <= i < j < |out| ==> !Joins(out[i].AsFlow(), out[j].from, out[j].to))
  }

  /** The entries still in the table belong to other pairs than those in the result. */
  ghost predicate Disjoint(out: seq<Merged>, m: Table) {
    forall i :: 0 <= i < |out| ==> Key(out[i].from, out[i].to) !in m && Key(out[i].to, out[i].from) !in m
  }

  lemma SoundStep(out: seq<Merged>, flows: seq<Flow>, m: Table, full: Table, key: string)
    requires Sound(out, flows) && Disjoint(out, m) && key in m && GoodKey(key) && m.Keys <= full.Keys && full[key] == m[key]
    requires Right(full, flows, Before(key), Behind(key))
    ensures Sound(out + [MergedOf(key, m[key])], flows) && Disjoint(out + [MergedOf(key, m[key])], m - {key})
  {
    var t, a, b := MergedOf(key, m[key]), Before(key), Behind(key);
    BetweenSymmetric(flows, a, b);
    var out' := out + [t];
    forall i | 0 <= i < |out| ensures !Joins(out[i].AsFlow(), t.from, t.to) {
      assert Key(out[i].from, out[i].to) !in m && Key(out[i].to, out[i].from) !in m;
    }
    forall i | 0 <= i < |out'| ensures Key(out'[i].from, out'[i].to) !in m - {key} && Key(out'[i].to, out'[i].from) !in m - {key} {
      if i == |out| {
        assert a != b ==> !(Key(a, b) in full && Key(b, a) in full);
      }
    }
  }

  /** Result and remaining table together carry what the full table carried. */
  ghost predicate Balanced(out: seq<Merged>, m: Table, full: Table) {
    forall a, b :: Plain(a) && Plain(b) ==> Net(AsFlows(out), a, b) + Signed(m, a, b) == Signed(full, a, b)
  }

  lemma BalancedStep(out: seq<Merged>, m: Table, full: Table, key: string)
    requires Balanced(out, m, full) && key in m && GoodKey(key)
    ensures Balanced(out + [MergedOf(key, m[key])], m - {key}, full)
  {
    var out', m' := out + [MergedOf(key, m[key])], m - {key};
    forall a, b | Plain(a) && Plain(b) ensures Net(AsFlows(out'), a, b) + Signed(m', a, b) == Signed(full, a, b) {
      EmitStep(m, key, out, a, b);
    }
  }

  /** Every key that left the table has its transaction. */
  ghost predicate Kept(out: seq<Merged>, m: Table, full: Table) {
    forall key <- full :: key in m || exists i :: 0 <= i < |out| && OfKey(out[i], key)
  }

  /** The merged transactions carry the net amount of every pair of chains. */
  ghost predicate SameNet(out: seq<Merged>, flows: seq<Flow>) {
    forall a, b :: Plain(a) && Plain(b) ==> Net(AsFlows(out), a, b) == Net(flows, a, b)
  }

  ghost predicate Complete(out: seq<Merged>, flows: seq<Flow>) {
    forall f <- flows :: exists i :: 0 <= i < |out| && Joins(f, out[i].from, out[i].to)
  }

  lemma EmitDone(out: seq<Merged>, flows: seq<Flow>, full: Table)
    requires full == Netted(flows) && forall f <- flows :: Plain(f.from) && Plain(f.to)
    requires Balanced(out, map[], full) && Kept(out, map[], full)
    ensures SameNet(out, flows) && Complete(out, flows)
  {
    forall a, b | Plain(a) && Plain(b) ensures Net(AsFlows(out), a, b) == Net(flows, a, b) {
      NettedRight(flows, a, b);
    }
    forall f | f in flows ensures exists i :: 0 <= i < |out| && Joins(f, out[i].from, out[i].to) {
      FlowHasEntry(flows, f);
      KeysGood(f.from, f.to);
      KeysGood(f.to, f.from);
    }
  }

  /** The second loop of mergerTx: entries leave the table in an arbitrary order. */
  method Emit(table: Table, ghost flows: seq<Flow>) returns (out: seq<Merged>)
    requires table == Netted(flows) && forall f <- flows :: Plain(f.from) && Plain(f.to)
    ensures SameNet(out, flows) && Sound(out, flows) && Complete(out, flows)
  {
    out := [];
    var m := table;
    NettedKeys(flows);
    while m != map[]
      invariant m.Keys <= table.Keys && (forall key <- m :: m[key] == table[key])
      invariant Sound(out, flows) && Disjoint(out, m) && Balanced(out, m, table) && Kept(out, m, table)
      decreases |m|
    {
      var key :| key in m;
      NettedRight(flows, Before(key), Behind(key));
      SoundStep(out, flows, m, table, key);
      BalancedStep(out, m, table, key);
      KeptStep(out, MergedOf(key, m[key]), table, m, key);
      out := out + [MergedOf(key, m[key])];
      m := m - {key};
    }
    EmitDone(out, flows, table);
  }

  /** The transaction made from this entry, whichever way it points. */
  ghost predicate OfKey(t: Merged, key: string) {
    Joins(t.AsFlow(), Before(key), Behind(key))
  }

  lemma KeptStep(out: seq<Merged>, t: Merged, full: Table, m: Table, key: string)
    requires Kept(out, m, full) && OfKey(t, key)
    ensures Kept(out + [t], m - {key}, full)
  {
    var out' := out + [t];
    forall k | k in full && k !in m - {key} ensures exists i :: 0 <= i < |out'| && OfKey(out'[i], k) {
      if k == key {
        assert OfKey(out'[|out|], k);
      } else {
        var i :| 0 <= i < |out| && OfKey(out[i], k);
        assert OfKey(out'[i], k);
      }
    }
  }

  lemma {:induction false} BetweenHas(flows: seq<Flow>, f: Flow)
    requires f in flows
    ensures Between(flows, f.from, f.to) != []
  {
    if flows[|flows| - 1] != f { BetweenHas(flows[..|flows| - 1], f); }
  }

  lemma FlowHasEntry(flows: seq<Flow>, f: Flow)
    requires f in flows && forall x <- flows :: Plain(x.from) && Plain(x.to)
    ensures Key(f.from, f.to) in Netted(flows) || Key(f.to, f.from) in Netted(flows)
  {
    BetweenHas(flows, f);
    NettedRight(flows, f.from, f.to);
  }

  // ---- Accumulation in place ----

  class Transaction {
    const fromChain: string
    const toChain: string
    const hash: nat
    var amount: int

    constructor (fromChain: string, toChain: string, amount: int, hash: nat)
      ensures this.fromChain == fromChain && this.toChain == toChain && this.amount == amount && this.hash == hash
    {
      this.fromChain, this.toChain, this.amount, this.hash := fromChain, toChain, amount, hash;
    }

    function AsFlow(): Flow
      reads this
    {
      Flow(fromChain, toChain, amount, hash)
    }
  }

  /** An entry adds up in the amount of its first transaction. */
  datatype Sum = Sum(first: Transaction, hashes: seq<nat>)

  ghost function TableOf(m: map<string, Sum>): Table
    reads set key <- m :: m[key].first
  {
    map key <- m :: Entry(m[key].first.amount, m[key].hashes)
  }

  ghost predicate Unshared(m: map<string, Sum>) {
    forall j <- m, k <- m :: j != k ==> m[j].first != m[k].first
  }

  /** Adding to one entry changes no other. */
  method AddTo(m: map<string, Sum>, key: string, amount: int, hash: nat) returns (m': map<string, Sum>)
    requires key in m && Unshared(m)
    modifies m[key].first
    ensures TableOf(m') == old(TableOf(m))[key := Noted(old(TableOf(m))[key], amount, hash)]
    ensures Unshared(m') && m'.Keys == m.Keys && forall k <- m :: m'[k].first == m[k].first
  {
    var s := m[key];
    s.first.amount := s.first.amount + amount;
    m' := m[key := Sum(s.first, s.hashes + [hash])];
  }

  ghost predicate AllDifferent(txs: seq<Transaction>) {
    forall i, j :: 0 <= i < j < |txs| ==> txs[i] != txs[j]
  }

  ghost function FlowsOf(txs: seq<Transaction>): (r: seq<Flow>)
    reads txs
    ensures |r| == |txs|
  {
    seq(|txs|, i requires 0 <= i < |txs| reads txs => txs[i].AsFlow())
  }

  /** The entries add up in transactions that were already read. */
  ghost predicate Owned(m: map<string, Sum>, txs: seq<Transaction>, n: nat)
    requires n <= |txs|
  {
    Unshared(m) && forall key <- m :: m[key].first in txs[..n]
  }

  /** The next transaction adds up for nobody yet. */
  lemma OwnedNext(m: map<string, Sum>, txs: seq<Transaction>, i: nat)
    requires i < |txs| && AllDifferent(txs) && Owned(m, txs, i)
    ensures Owned(m, txs, i + 1) && txs[i] !in txs[..i] && forall key <- m :: m[key].first != txs[i]
  {
    assert txs[..i + 1] == txs[..i] + [txs[i]];
  }

  /** A flow of a pair that has no entry yet opens one, which adds up in the transaction itself. */
  method Open(m: map<string, Sum>, key: string, tx: Transaction) returns (m': map<string, Sum>)
    requires key !in m && Unshared(m) && forall k <- m :: m[k].first != tx
    ensures m' == m[key := Sum(tx, [tx.hash])] && Unshared(m')
    ensures TableOf(m') == TableOf(m)[key := Entry(tx.amount, [tx.hash])]
  {
    m' := m[key := Sum(tx, [tx.hash])];
  }

  /** The transactions the entry a flow joins adds up in. */
  ghost function Joined(m: map<string, Sum>, key: string, back: string): set<Transaction> {
    if key in m then {m[key].first} else if back in m then {m[back].first} else {}
  }

  /** A flow joins the entry of its pair, in either direction, or opens one. */
  method Join(m: map<string, Sum>, tx: Transaction) returns (m': map<string, Sum>)
    requires Unshared(m) && forall k <- m :: m[k].first != tx
    modifies Joined(m, Key(tx.fromChain, tx.toChain), Key(tx.toChain, tx.fromChain))
    ensures Unshared(m') && forall k <- m' :: m'[k].first == if k in m then m[k].first else tx
    ensures TableOf(m') == Absorbed(old(TableOf(m)), old(tx.AsFlow()))
  {
    var key, back := Key(tx.fromChain, tx.toChain), Key(tx.toChain, tx.fromChain);
    if key in m {
      m' := AddTo(m, key, tx.amount, tx.hash);
    } else if back in m {
      m' := AddTo(m, back, -tx.amount, tx.hash);
    } else {
      m' := Open(m, key, tx);
    }
  }

  /** The body of the first loop of mergerTx. */
  method Absorb(m: map<string, Sum>, txs: seq<Transaction>, i: nat) returns (m': map<string, Sum>)
    requires i < |txs| && AllDifferent(txs) && Owned(m, txs, i)
    modifies txs[..i]
    ensures Owned(m', txs, i + 1)
    ensures TableOf(m') == Absorbed(old(TableOf(m)), old(txs[i].AsFlow()))
  {
    var tx := txs[i];
    OwnedNext(m, txs, i);
    m' := Join(m, tx);
    assert forall k <- m' :: m'[k].first in txs[..i + 1] by {
      assert tx == txs[..i + 1][i];
    }
  }

  method Accumulate(txs: seq<Transaction>) returns (m: map<string, Sum>)
    requires AllDifferent(txs)
    modifies txs
    ensures TableOf(m) == Netted(old(FlowsOf(txs)))
  {
    ghost var flows := FlowsOf(txs);
    m := map[];
    for i := 0 to |txs|
      invariant Owned(m, txs, i) && TableOf(m) == Netted(flows[..i])
      invariant forall j :: i <= j < |txs| ==> txs[j].AsFlow() == flows[j]
    {
      assert flows[..i + 1][..i] == flows[..i];
      m := Absorb(m, txs, i);
    }
    assert flows[..|txs|] == flows;
  }

  /** mergerTx on different transaction objects: the net of every pair of chains is preserved, although the
      amounts are added up inside the transactions themselves. */
  method MergerTx(txs: seq<Transaction>) returns (out: seq<Merged>)
    requires AllDifferent(txs) && forall tx <- txs :: Plain(tx.fromChain) && Plain(tx.toChain)
    modifies txs
    ensures var flows := old(FlowsOf(txs)); SameNet(out, flows) && Sound(out, flows) && Complete(out, flows)
  {
    ghost var flows := FlowsOf(txs);
    var m := Accumulate(txs);
    var table: Table := map key <- m :: Entry(m[key].first.amount, m[key].hashes);
    assert table == TableOf(m);
    assert forall f <- flows :: Plain(f.from) && Plain(f.to);
    out := Emit(table, flows);
  }
}
