/**
 * Fetching pending transactions in groups of one destination chain (core/blockchain/validator.go):
 * the accounts are walked from their cursors and every transaction is offered to the grouping.
 */
module Grouping {
  import opened Words
  import opened Sums
  import opened Pool

  // ---- The grouping ----

  /** Per destination its groups in order, the number of groups asked for so far, and all transactions. */
  datatype Groups = Groups(chains: map<string, seq<seq<Tx>>>, size: nat, all: seq<Tx>)

  const NO_GROUPS := Groups(map[], 0, [])

  datatype Reply = Reply(g: Groups, ok: bool)

  /** The closure of FetchGroupingTxsInTxPool: append to the last group of the destination, or open one. */
  function Offered(g: Groups, tx: Tx, num: nat, max: int): Reply {
    var c := tx.toChain;
    if c in g.chains && g.chains[c] != [] && |Last(g.chains[c])| < max then
      var gs := g.chains[c];
      Reply(Groups(g.chains[c := gs[..|gs| - 1] + [Last(gs) + [tx]]], g.size, g.all + [tx]), true)
    else if g.size + 1 > num then Reply(g.(size := g.size + 1), false)
    else
      var gs := if c in g.chains then g.chains[c] else [];
      Reply(Groups(g.chains[c := gs + [[tx]]], g.size + 1, g.all + [tx]), true)
  }

  function Last<T>(s: seq<T>): T
    requires s != []
  {
    s[|s| - 1]
  }

  datatype Walk = Walk(g: Groups, taken: nat)

  /** iterTransaction: offer until one is refused. */
  function Walked(g: Groups, txs: seq<Tx>, num: nat, max: int): (w: Walk)
    ensures w.taken <= |txs|
    decreases txs
  {
    if txs == [] then Walk(g, 0)
    else
      var r := Offered(g, txs[0], num, max);
      if !r.ok then Walk(r.g, 0)
      else var w := Walked(r.g, txs[1..], num, max); Walk(w.g, 1 + w.taken)
  }

  // ---- What the grouping holds ----

  function Concat(gs: seq<seq<Tx>>): seq<Tx> {
    if gs == [] then [] else Concat(gs[..|gs| - 1]) + Last(gs)
  }

  /** The transactions bound for c, in order. */
  function For(all: seq<Tx>, c: string): seq<Tx> {
    if all == [] then []
    else For(all[..|all| - 1], c) + if Last(all).toChain == c then [Last(all)] else []
  }

  function Cap(max: int): (r: nat)
    ensures r >= 1
  {
    if max < 1 then 1 else max
  }

  ghost function Count(chains: map<string, seq<seq<Tx>>>): int {
    Sum((c: string) => if c in chains then |chains[c]| else 0, chains.Keys)
  }

  /** The groups of one destination: together its transactions in order, all full but the last. */
  ghost predicate GoodChain(gs: seq<seq<Tx>>, all: seq<Tx>, c: string, max: int) {
    && gs != [] && Concat(gs) == For(all, c)
    && (forall i :: 0 <= i < |gs| ==> 1 <= |gs[i]| <= Cap(max))
    && (forall i :: 0 <= i < |gs| - 1 ==> |gs[i]| == Cap(max))
  }

  ghost predicate GoodChains(chains: map<string, seq<seq<Tx>>>, all: seq<Tx>, max: int) {
    forall c <- chains :: GoodChain(chains[c], all, c, max)
  }

  ghost predicate Covers(chains: map<string, seq<seq<Tx>>>, all: seq<Tx>) {
    forall i :: 0 <= i < |all| ==> all[i].toChain in chains
  }

  ghost predicate Good(g: Groups, num: nat, max: int) {
    && Count(g.chains) == (if g.size <= num then g.size else num)
    && GoodChains(g.chains, g.all, max)
    && Covers(g.chains, g.all)
  }

  lemma ForNext(all: seq<Tx>, tx: Tx, c: string)
    ensures For(all + [tx], c) == For(all, c) + if tx.toChain == c then [tx] else []
  {
    assert (all + [tx])[..|all|] == all;
  }

  lemma {:induction false} ForNone(all: seq<Tx>, c: string)
    requires forall i :: 0 <= i < |all| ==> all[i].toChain != c
    ensures For(all, c) == []
  {
    if all != [] { ForNone(all[..|all| - 1], c); }
  }

  lemma ConcatNext(gs: seq<seq<Tx>>, x: seq<Tx>)
    ensures Concat(gs + [x]) == Concat(gs) + x
  {
    assert (gs + [x])[..|gs|] == gs;
  }

  lemma CountChange(chains: map<string, seq<seq<Tx>>>, c: string, gs: seq<seq<Tx>>)
    ensures Count(chains[c := gs]) == Count(chains) + |gs| - if c in chains then |chains[c]| else 0
  {
    var chains' := chains[c := gs];
    var f, f' := (x: string) => if x in chains then |chains[x]| else 0, (x: string) => if x in chains' then |chains'[x]| else 0;
    assert chains'.Keys == chains.Keys + {c};
    if c in chains {
      assert chains'.Keys == chains.Keys;
      SumChange(f, f', chains.Keys, c);
    } else {
      SumPick(f', chains'.Keys, c);
      assert chains'.Keys - {c} == chains.Keys;
      SumSame(f, f', chains.Keys);
    }
  }

  /** Opening a group. */
  lemma OpenGood(gs: seq<seq<Tx>>, all: seq<Tx>, tx: Tx, max: int)
    requires gs == [] ==> For(all, tx.toChain) == []
    requires gs != [] ==> GoodChain(gs, all, tx.toChain, max) && |Last(gs)| >= max
    ensures GoodChain(gs + [[tx]], all + [tx], tx.toChain, max)
  {
    ConcatNext(gs, [tx]);
    ForNext(all, tx, tx.toChain);
  }

  /** Filling the last group. */
  lemma FillGood(gs: seq<seq<Tx>>, all: seq<Tx>, tx: Tx, max: int)
    requires gs != [] && GoodChain(gs, all, tx.toChain, max) && |Last(gs)| < max
    ensures GoodChain(gs[..|gs| - 1] + [Last(gs) + [tx]], all + [tx], tx.toChain, max)
  {
    var front := gs[..|gs| - 1];
    ConcatNext(front, Last(gs) + [tx]);
    ForNext(all, tx, tx.toChain);
    assert Concat(front) + Last(gs) + [tx] == Concat(front) + (Last(gs) + [tx]);
  }

  lemma OthersGood(g: Groups, tx: Tx, num: nat, max: int, c: string)
    requires Good(g, num, max) && c in g.chains && c != tx.toChain
    ensures GoodChain(g.chains[c], g.all + [tx], c, max)
  {
    ForNext(g.all, tx, c);
  }

  lemma PutKeeps(g: Groups, tx: Tx, num: nat, max: int, gs: seq<seq<Tx>>)
    requires Good(g, num, max) && GoodChain(gs, g.all + [tx], tx.toChain, max)
    ensures GoodChains(g.chains[tx.toChain := gs], g.all + [tx], max)
    ensures Covers(g.chains[tx.toChain := gs], g.all + [tx])
  {
    var chains := g.chains[tx.toChain := gs];
    forall c | c in chains ensures GoodChain(chains[c], g.all + [tx], c, max) {
      if c != tx.toChain { OthersGood(g, tx, num, max, c); }
    }
  }

  /** The groups of the destination after an accepted offer. */
  lemma OfferedChain(g: Groups, tx: Tx, num: nat, max: int)
    requires Good(g, num, max) && Offered(g, tx, num, max).ok
    ensures GoodChain(Offered(g, tx, num, max).g.chains[tx.toChain], g.all + [tx], tx.toChain, max)
  {
    var c := tx.toChain;
    if c in g.chains {
      assert GoodChain(g.chains[c], g.all, c, max);
      if |Last(g.chains[c])| < max { FillGood(g.chains[c], g.all, tx, max); } else { OpenGood(g.chains[c], g.all, tx, max); }
    } else {
      ForNone(g.all, c);
      OpenGood([], g.all, tx, max);
    }
  }

  lemma OfferCounts(g: Groups, tx: Tx, num: nat, max: int)
    requires Good(g, num, max)
    ensures var g' := Offered(g, tx, num, max).g; Count(g'.chains) == if g'.size <= num then g'.size else num
  {
    var c, r := tx.toChain, Offered(g, tx, num, max);
    if r.ok { CountChange(g.chains, c, r.g.chains[c]); }
  }

  lemma OfferKeeps(g: Groups, tx: Tx, num: nat, max: int)
    requires Good(g, num, max)
    ensures Good(Offered(g, tx, num, max).g, num, max)
  {
    OfferCounts(g, tx, num, max);
    var r := Offered(g, tx, num, max);
    if r.ok {
      OfferedChain(g, tx, num, max);
      var gs := r.g.chains[tx.toChain];
      PutKeeps(g, tx, num, max, gs);
      assert r.g.chains == g.chains[tx.toChain := gs] && r.g.all == g.all + [tx];
    }
  }

  lemma {:induction false} WalkTakes(g: Groups, txs: seq<Tx>, num: nat, max: int)
    ensures var w := Walked(g, txs, num, max); w.g.all == g.all + txs[..w.taken]
    decreases txs
  {
    if txs != [] {
      var r := Offered(g, txs[0], num, max);
      if r.ok {
        WalkTakes(r.g, txs[1..], num, max);
        Slice(g.all, txs, Walked(r.g, txs[1..], num, max).taken);
      }
    }
  }

  lemma Slice(all: seq<Tx>, txs: seq<Tx>, k: nat)
    requires k < |txs|
    ensures all + [txs[0]] + txs[1..][..k] == all + txs[..1 + k]
  {
    assert txs[..1 + k] == [txs[0]] + txs[1..][..k];
  }

  /** A walk takes a prefix of what it is offered and keeps the groups good. */
  lemma {:induction false} WalkKeeps(g: Groups, txs: seq<Tx>, num: nat, max: int)
    requires Good(g, num, max)
    ensures var w := Walked(g, txs, num, max);
            Good(w.g, num, max) && w.g.all == g.all + txs[..w.taken]
    decreases txs
  {
    WalkTakes(g, txs, num, max);
    if txs != [] {
      OfferKeeps(g, txs[0], num, max);
      var r := Offered(g, txs[0], num, max);
      if r.ok { WalkKeeps(r.g, txs[1..], num, max); }
    }
  }

  // ---- Nothing is left behind while there is room ----

  ghost predicate NoneEmpty(g: Groups) {
    forall c <- g.chains :: g.chains[c] != []
  }

  /** The transaction needs a group beyond `num`. */
  ghost predicate Shut(g: Groups, tx: Tx, num: nat, max: int) {
    g.size > num && (tx.toChain in g.chains ==> g.chains[tx.toChain] != [] && |Last(g.chains[tx.toChain])| >= max)
  }

  lemma OfferShut(g: Groups, t: Tx, tx: Tx, num: nat, max: int)
    requires NoneEmpty(g)
    ensures var r := Offered(g, t, num, max);
            && NoneEmpty(r.g) && (!r.ok ==> Shut(r.g, t, num, max))
            && (Shut(g, tx, num, max) ==> Shut(r.g, tx, num, max))
  {
  }

  lemma {:induction false} WalkShut(g: Groups, txs: seq<Tx>, tx: Tx, num: nat, max: int)
    requires NoneEmpty(g)
    ensures var w := Walked(g, txs, num, max); NoneEmpty(w.g) && (Shut(g, tx, num, max) ==> Shut(w.g, tx, num, max))
    decreases txs
  {
    if txs != [] {
      OfferShut(g, txs[0], tx, num, max);
      var r := Offered(g, txs[0], num, max);
      if r.ok { WalkShut(r.g, txs[1..], tx, num, max); }
    }
  }

  /** A walk stops only at a transaction that needs a group beyond `num`. */
  lemma {:induction false} WalkStops(g: Groups, txs: seq<Tx>, num: nat, max: int)
    requires NoneEmpty(g)
    ensures var w := Walked(g, txs, num, max); w.taken < |txs| ==> Shut(w.g, txs[w.taken], num, max)
    decreases txs
  {
    if txs != [] {
      OfferShut(g, txs[0], txs[0], num, max);
      var r := Offered(g, txs[0], num, max);
      if r.ok { WalkStops(r.g, txs[1..], num, max); }
    }
  }

  lemma {:induction false} ForSizes(all: seq<Tx>, keys: set<string>, f: string -> int)
    requires (forall i :: 0 <= i < |all| ==> all[i].toChain in keys) && forall c <- keys :: f(c) == |For(all, c)|
    ensures Sum(f, keys) == |all|
    decreases |all|
  {
    if all == [] {
      SumZero(f, keys);
    } else {
      var before, c := all[..|all| - 1], Last(all).toChain;
      var g := (x: string) => |For(before, x)| as int;
      ForSizes(before, keys, g);
      SumChange(g, f, keys, c);
    }
  }

  lemma {:induction false} SumZero<T>(f: T -> int, s: set<T>)
    requires forall x <- s :: f(x) == 0
    ensures Sum(f, s) == 0
    decreases |s|
  {
    if s != {} {
      var x :| x in s;
      SumPick(f, s, x);
      SumZero(f, s - {x});
    }
  }

  lemma {:induction false} SumAtMost<T>(f: T -> int, g: T -> int, s: set<T>, k: nat)
    requires forall x <- s :: f(x) <= k * g(x)
    ensures Sum(f, s) <= k * Sum(g, s)
    decreases |s|
  {
    if s != {} {
      var x :| x in s;
      SumPick(f, s, x);
      SumPick(g, s, x);
      SumAtMost(f, g, s - {x}, k);
      Distribute(k, g(x), Sum(g, s - {x}));
    }
  }

  lemma Distribute(k: int, a: int, b: int)
    ensures k * (a + b) == k * a + k * b
  {
  }

  lemma {:induction false} ConcatFits(gs: seq<seq<Tx>>, cap: nat)
    requires forall i :: 0 <= i < |gs| ==> |gs[i]| <= cap
    ensures |Concat(gs)| <= cap * |gs|
  {
    if gs != [] {
      ConcatFits(gs[..|gs| - 1], cap);
      Distribute(cap, |gs| - 1, 1);
    }
  }

  /** `num` groups hold at most num times the size of one, so with a positive size no walk ends early. */
  lemma FetchedFits(g: Groups, num: nat, max: int)
    requires Good(g, num, max)
    ensures max >= 1 ==> |g.all| <= max * num
  {
    var f := (c: string) => |For(g.all, c)| as int;
    var n := (c: string) => if c in g.chains then |g.chains[c]| else 0;
    ForSizes(g.all, g.chains.Keys, f);
    forall c | c in g.chains ensures f(c) <= Cap(max) * n(c) {
      assert GoodChain(g.chains[c], g.all, c, max);
      ConcatFits(g.chains[c], Cap(max));
    }
    SumAtMost(f, n, g.chains.Keys, Cap(max));
    SumSame(n, (c: string) => if c in g.chains then |g.chains[c]| else 0, g.chains.Keys);
    AtMostTimes(Cap(max), Count(g.chains), num);
  }

  lemma AtMostTimes(k: nat, a: int, b: int)
    requires a <= b
    ensures k * a <= k * b
  {
  }

  // ---- The groups laid out ----

  datatype Label = Label(chain: string, idx: nat)

  function LabelsOf(c: string, n: nat): set<Label> {
    set j {:trigger Label(c, j)} | 0 <= j < n :: Label(c, j)
  }

  ghost predicate Distinct<T>(s: seq<T>) {
    forall i, j :: 0 <= i < j < |s| ==> s[i] != s[j]
  }

  predicate Names(chains: map<string, seq<seq<Tx>>>, l: Label) {
    l.chain in chains && l.idx < |chains[l.chain]|
  }

  function GroupOf(chains: map<string, seq<seq<Tx>>>, l: Label): seq<Tx> {
    if Names(chains, l) then chains[l.chain][l.idx] else []
  }

  /** The layout holds every group of the chains outside `left` once, those of the local chain in front. */
  ghost predicate Placed(out: seq<seq<Tx>>, labels: seq<Label>, chains: map<string, seq<seq<Tx>>>, left: set<string>,
                         local: string)
  {
    && |out| == |labels| && Distinct(labels)
    && (forall l :: l in labels <==> Names(chains, l) && l.chain !in left)
    && (forall i :: 0 <= i < |out| ==> out[i] == GroupOf(chains, labels[i]))
    && (forall i, j :: 0 <= i < j < |labels| && labels[j].chain == local ==> labels[i].chain == local)
  }

  ghost predicate Arranged(out: seq<seq<Tx>>, labels: seq<Label>, chains: map<string, seq<seq<Tx>>>, local: string) {
    Placed(out, labels, chains, {}, local)
  }

  function Occurrences(out: seq<seq<Tx>>, t: Tx): nat {
    if out == [] then 0 else Occurrences(out[..|out| - 1], t) + multiset(Last(out))[t]
  }

  /** How often t occurs in the group with this label. */
  ghost function Share(chains: map<string, seq<seq<Tx>>>, t: Tx): Label -> int {
    (l: Label) => multiset(GroupOf(chains, l))[t] as int
  }

  function Elements(labels: seq<Label>): set<Label> {
    set l <- labels
  }

  lemma DropLast(labels: seq<Label>)
    requires Distinct(labels) && labels != []
    ensures Elements(labels) - {Last(labels)} == Elements(labels[..|labels| - 1])
    ensures Distinct(labels[..|labels| - 1])
  {
    var before := labels[..|labels| - 1];
    assert labels == before + [Last(labels)];
    assert Last(labels) !in before;
  }

  lemma {:induction false} OccurrencesByLabel(out: seq<seq<Tx>>, labels: seq<Label>, f: Label -> int, t: Tx)
    requires |out| == |labels| && Distinct(labels)
    requires forall i :: 0 <= i < |out| ==> f(labels[i]) == multiset(out[i])[t]
    ensures Occurrences(out, t) == Sum(f, Elements(labels))
  {
    if out != [] {
      OccurrencesByLabel(out[..|out| - 1], labels[..|labels| - 1], f, t);
      DropLast(labels);
      SumPick(f, Elements(labels), Last(labels));
    }
  }

  lemma {:induction false} ChainShare(gs: seq<seq<Tx>>, c: string, f: Label -> int, t: Tx)
    requires forall j :: 0 <= j < |gs| ==> f(Label(c, j)) == multiset(gs[j])[t]
    ensures Sum(f, LabelsOf(c, |gs|)) == multiset(Concat(gs))[t]
  {
    if gs == [] {
      assert LabelsOf(c, 0) == {};
    } else {
      var n := |gs| - 1;
      ChainShare(gs[..n], c, f, t);
      assert Concat(gs) == Concat(gs[..n]) + gs[n];
      assert LabelsOf(c, n + 1) - {Label(c, n)} == LabelsOf(c, n);
      SumPick(f, LabelsOf(c, n + 1), Label(c, n));
    }
  }

  lemma {:induction false} ForShare(all: seq<Tx>, t: Tx)
    ensures multiset(For(all, t.toChain))[t] == multiset(all)[t]
  {
    if all != [] {
      ForShare(all[..|all| - 1], t);
      assert all == all[..|all| - 1] + [Last(all)];
    }
  }

  lemma {:induction false} ForOnly(all: seq<Tx>, c: string, t: Tx)
    requires t.toChain != c
    ensures multiset(For(all, c))[t] == 0
  {
    if all != [] { ForOnly(all[..|all| - 1], c, t); }
  }

  lemma {:induction false} ConcatHas(gs: seq<seq<Tx>>, i: nat, t: Tx)
    requires i < |gs| && t in gs[i]
    ensures t in Concat(gs)
  {
    if i < |gs| - 1 { ConcatHas(gs[..|gs| - 1], i, t); }
  }

  /** Every transaction in a group is bound for the group's chain. */
  lemma OneDestination(g: Groups, num: nat, max: int, l: Label, t: Tx)
    requires Good(g, num, max) && Names(g.chains, l) && t in GroupOf(g.chains, l)
    ensures t.toChain == l.chain
  {
    assert GoodChain(g.chains[l.chain], g.all, l.chain, max);
    ConcatHas(g.chains[l.chain], l.idx, t);
    if t.toChain != l.chain { ForOnly(g.all, l.chain, t); }
  }

  lemma LaidOut(g: Groups, num: nat, max: int, l: Label)
    requires Good(g, num, max) && Names(g.chains, l)
    ensures 1 <= |GroupOf(g.chains, l)| <= Cap(max)
    ensures forall x <- GroupOf(g.chains, l) :: x.toChain == l.chain
  {
    assert GoodChain(g.chains[l.chain], g.all, l.chain, max);
    forall x | x in GroupOf(g.chains, l) ensures x.toChain == l.chain { OneDestination(g, num, max, l, x); }
  }

  /** The labels of the other chains contribute nothing. */
  lemma ShareTotal(g: Groups, num: nat, max: int, s: set<Label>, t: Tx)
    requires Good(g, num, max) && forall l :: l in s <==> Names(g.chains, l)
    ensures Sum(Share(g.chains, t), s) == multiset(g.all)[t]
  {
    var c, f := t.toChain, Share(g.chains, t);
    var mine := if c in g.chains then LabelsOf(c, |g.chains[c]|) else {};
    forall l | l in s - mine ensures f(l) == 0 {
      LaidOut(g, num, max, l);
    }
    SumWithin(f, s, mine);
    ForShare(g.all, t);
    if c in g.chains {
      ChainShare(g.chains[c], c, f, t);
      assert GoodChain(g.chains[c], g.all, c, max);
    } else {
      ForNone(g.all, c);
    }
  }

  /** Every group holds between one and max(1, `max`) transactions, all with its destination. */
  lemma BoundedGroups(g: Groups, num: nat, max: int, out: seq<seq<Tx>>, labels: seq<Label>, local: string, i: nat)
    requires Good(g, num, max) && Arranged(out, labels, g.chains, local) && i < |out|
    ensures 1 <= |out[i]| <= Cap(max)
    ensures forall x <- out[i] :: x.toChain == labels[i].chain
  {
    assert labels[i] in labels;
    LaidOut(g, num, max, labels[i]);
  }

  /** The groups are a partition of the fetched transactions: each occurs in them as often as it was
      fetched. */
  lemma GroupsPartition(g: Groups, num: nat, max: int, out: seq<seq<Tx>>, labels: seq<Label>, local: string, t: Tx)
    requires Good(g, num, max) && Arranged(out, labels, g.chains, local)
    ensures Occurrences(out, t) == multiset(g.all)[t]
  {
    OccurrencesByLabel(out, labels, Share(g.chains, t), t);
    ShareTotal(g, num, max, Elements(labels), t);
  }

  /** All groups are in use, and none of those with the destination of tx can take it. */
  ghost predicate NoRoom(groups: seq<seq<Tx>>, tx: Tx, max: int) {
    forall i | 0 <= i < |groups| :: groups[i] != [] && (groups[i][0].toChain == tx.toChain ==> |groups[i]| >= max)
  }

  lemma GroupFull(g: Groups, num: nat, max: int, l: Label, tx: Tx)
    requires Good(g, num, max) && Names(g.chains, l) && Shut(g, tx, num, max) && l.chain == tx.toChain
    ensures |GroupOf(g.chains, l)| >= max
  {
    assert GoodChain(g.chains[l.chain], g.all, l.chain, max);
  }

  lemma ShutIsNoRoom(g: Groups, num: nat, max: int, out: seq<seq<Tx>>, labels: seq<Label>, local: string, tx: Tx)
    requires Good(g, num, max) && Arranged(out, labels, g.chains, local) && Shut(g, tx, num, max)
    ensures NoRoom(out, tx, max)
  {
    forall i | 0 <= i < |out| ensures out[i] != [] && (out[i][0].toChain == tx.toChain ==> |out[i]| >= max) {
      assert labels[i] in labels && Names(g.chains, labels[i]);
      BoundedGroups(g, num, max, out, labels, local, i);
      assert out[i][0] in out[i];
      if labels[i].chain == tx.toChain { GroupFull(g, num, max, labels[i], tx); }
    }
  }

  lemma {:induction false} SumWithin<T>(f: T -> int, s: set<T>, part: set<T>)
    requires part <= s && forall x <- s - part :: f(x) == 0
    ensures Sum(f, s) == Sum(f, part)
    decreases |s|
  {
    if s - part == {} {
      assert s == part;
    } else {
      var x :| x in s - part;
      SumPick(f, s, x);
      SumWithin(f, s - {x}, part);
    }
  }

  // ---- Cursors ----

  /** The first position of a transaction, or the length of the list. */
  function IndexOf(txs: seq<Tx>, tx: Tx): (p: nat)
    ensures p <= |txs| && (p < |txs| ==> txs[p] == tx)
    ensures forall j :: 0 <= j < p ==> txs[j] != tx
  {
    if txs == [] || txs[0] == tx then 0 else 1 + IndexOf(txs[1..], tx)
  }

  /** Where a walk starts: behind the cursor, or at the front when the cursor is no longer pending. */
  function Start(txs: seq<Tx>, cur: Option<Tx>): (i: nat)
    ensures i <= |txs|
  {
    if cur.Some? && cur.value in txs then 1 + IndexOf(txs, cur.value) else 0
  }

  function Moved(txs: seq<Tx>, cur: Option<Tx>, taken: nat): Option<Tx>
    requires Start(txs, cur) + taken <= |txs|
  {
    if taken == 0 then cur else Some(txs[Start(txs, cur) + taken - 1])
  }

  // ---- Every pending transaction is fetched at most once ----

  /** An account over its life: all transactions ever accepted, how many of them were committed, and the
      position of the last one fetched (-1 before the first fetch). */
  datatype Life = Life(log: seq<Tx>, committed: nat, last: int, next: uint32) {
    ghost predicate Valid() {
      committed <= |log| <= TWO_32 && -1 <= last < |log| && Consecutive(log, next)
    }

    /** The pending transactions and the cursor that the code keeps. */
    function Pending(): seq<Tx>
      requires committed <= |log|
    {
      log[committed..]
    }

    function Cursor(): Option<Tx>
      requires -1 <= last < |log|
    {
      if last < 0 then None else Some(log[last])
    }

    /** How far the fetches and commits got. */
    function Frontier(): nat
      requires -1 <= last
    {
      if last + 1 > committed then last + 1 else committed
    }
  }

  lemma LogDistinct(log: seq<Tx>, next: uint32)
    requires Consecutive(log, next) && |log| <= TWO_32
    ensures Distinct(log)
  {
    forall i, j | 0 <= i < j < |log| ensures log[i] != log[j] {
      assert log[i].nonce == Plus32(next, i - |log|) && log[j].nonce == Plus32(next, j - |log|);
    }
  }

  lemma FoundOnlyAt(log: seq<Tx>, committed: nat, last: nat)
    requires Distinct(log) && committed <= |log| && last < |log|
    ensures log[last] in log[committed..] <==> committed <= last
    ensures committed <= last ==> IndexOf(log[committed..], log[last]) == last - committed
  {
    var p := log[committed..];
    assert forall i :: 0 <= i < |p| ==> p[i] == log[committed + i];
    if committed <= last { assert p[last - committed] == log[last]; }
  }

  /** The walk of an account starts exactly where the fetches and commits got to. */
  lemma StartIsFrontier(l: Life)
    requires l.Valid()
    ensures Start(l.Pending(), l.Cursor()) == l.Frontier() - l.committed
  {
    LogDistinct(l.log, l.next);
    if l.last >= 0 { FoundOnlyAt(l.log, l.committed, l.last); }
  }

  datatype Deed = Accept(tx: Tx) | CommitFirst | Fetch(taken: nat)

  ghost predicate Possible(l: Life, d: Deed) {
    && l.Valid()
    && match d
       case Accept(tx) => tx.nonce == l.next && |l.log| < TWO_32
       case CommitFirst => l.committed < |l.log|
       case Fetch(taken) => l.Frontier() + taken <= |l.log|
  }

  ghost function Lived(l: Life, d: Deed): Life
    requires Possible(l, d)
  {
    match d
    case Accept(tx) => l.(log := l.log + [tx], next := Inc32(l.next))
    case CommitFirst => l.(committed := l.committed + 1)
    case Fetch(taken) => if taken == 0 then l else l.(last := l.Frontier() + taken - 1)
  }

  /** What the walk of the code returns and where it leaves the cursor. */
  lemma FetchStep(l: Life, taken: nat)
    requires Possible(l, Fetch(taken))
    ensures var p := l.Pending();
            var from := Start(p, l.Cursor());
            && from + taken <= |p| && p[from..][..taken] == l.log[l.Frontier()..][..taken]
            && Moved(p, l.Cursor(), taken) == Lived(l, Fetch(taken)).Cursor()
  {
    StartIsFrontier(l);
    NextStretch(l.log, l.committed, l.Frontier() - l.committed, taken);
  }

  lemma NextStretch<T>(log: seq<T>, committed: nat, from: nat, taken: nat)
    requires committed + from + taken <= |log|
    ensures log[committed..][from..][..taken] == log[committed + from..][..taken]
    ensures taken > 0 ==> log[committed..][from + taken - 1] == log[committed + from + taken - 1]
  {
    DropTwice(log, committed, from);
  }

  lemma DropTwice<T>(s: seq<T>, a: nat, b: nat)
    requires a + b <= |s|
    ensures s[a..][b..] == s[a + b..]
  {
  }

  lemma LifeStep(l: Life, d: Deed)
    requires Possible(l, d)
    ensures Lived(l, d).Valid() && l.log <= Lived(l, d).log
    ensures Lived(l, d).Frontier() >= l.Frontier() + if d.Fetch? then d.taken else 0
  {
    if d.Accept? { ConsecutiveAppend(l.log, l.next, d.tx); }
  }

  ghost predicate IsLife(l: Life, ds: seq<Deed>)
    decreases ds
  {
    ds == [] || (Possible(l, ds[0]) && IsLife(Lived(l, ds[0]), ds[1..]))
  }

  ghost function Returned(l: Life, d: Deed): seq<Tx>
    requires Possible(l, d)
  {
    if d.Fetch? then l.log[l.Frontier()..][..d.taken] else []
  }

  ghost function AllReturned(l: Life, ds: seq<Deed>): seq<Tx>
    requires IsLife(l, ds)
    decreases ds
  {
    if ds == [] then [] else Returned(l, ds[0]) + AllReturned(Lived(l, ds[0]), ds[1..])
  }

  ghost function FinalLog(l: Life, ds: seq<Deed>): seq<Tx>
    requires IsLife(l, ds)
    decreases ds
  {
    if ds == [] then l.log else FinalLog(Lived(l, ds[0]), ds[1..])
  }

  lemma {:induction false} LogGrows(l: Life, ds: seq<Deed>)
    requires IsLife(l, ds)
    ensures l.log <= FinalLog(l, ds)
    decreases ds
  {
    if ds != [] {
      LifeStep(l, ds[0]);
      LogGrows(Lived(l, ds[0]), ds[1..]);
    }
  }

  /** The transactions returned sit in the log at growing positions from `from` on. */
  ghost predicate Picks(returned: seq<Tx>, log: seq<Tx>, from: nat, at: seq<nat>) {
    && |at| == |returned|
    && (forall i :: 0 <= i < |at| ==> from <= at[i] < |log| && log[at[i]] == returned[i])
    && (forall i, j :: 0 <= i < j < |at| ==> at[i] < at[j])
  }

  /** Over any run of accepted pushes, head commits and fetches, all that is ever returned are transactions
      of the log at growing positions: nothing is returned twice, and the order of the nonces is kept. */
  lemma {:induction false} FetchedOnce(l: Life, ds: seq<Deed>) returns (at: seq<nat>)
    requires l.Valid() && IsLife(l, ds)
    ensures Picks(AllReturned(l, ds), FinalLog(l, ds), l.Frontier(), at)
    decreases ds
  {
    if ds == [] {
      at := [];
    } else {
      var l' := Lived(l, ds[0]);
      LifeStep(l, ds[0]);
      LogGrows(l, ds);
      var rest := FetchedOnce(l', ds[1..]);
      at := Prepended(Returned(l, ds[0]), AllReturned(l', ds[1..]), FinalLog(l, ds), l.Frontier(), l'.Frontier(), rest);
    }
  }

  lemma Prepended(first: seq<Tx>, others: seq<Tx>, log: seq<Tx>, from: nat, mid: nat, rest: seq<nat>) returns (at: seq<nat>)
    requires Picks(others, log, mid, rest) && from + |first| <= mid && from + |first| <= |log|
    requires forall i :: 0 <= i < |first| ==> log[from + i] == first[i]
    ensures Picks(first + others, log, from, at)
  {
    var ahead := seq(|first|, i => from + i);
    at := ahead + rest;
    forall i | 0 <= i < |at| ensures from <= at[i] < |log| && log[at[i]] == (first + others)[i] {
      if i >= |first| { assert at[i] == rest[i - |first|]; }
    }
    forall i, j | 0 <= i < j < |at| ensures at[i] < at[j] {
      if j >= |first| { assert at[j] == rest[j - |first|]; }
      if i >= |first| { assert at[i] == rest[i - |first|]; }
    }
  }

  // ---- The code ----

  class Grouper {
    const num: nat
    const max: int
    var chains: map<string, seq<seq<Tx>>>
    var size: nat
    var all: seq<Tx>

    constructor (num: nat, max: int)
      ensures this.num == num && this.max == max && Abstract() == NO_GROUPS
    {
      this.num, this.max := num, max;
      chains, size, all := map[], 0, [];
    }

    ghost function Abstract(): Groups
      reads this
    {
      Groups(chains, size, all)
    }

    /** The closure of FetchGroupingTxsInTxPool: the transaction joins the last group of its destination while that has
        room, and opens one otherwise; it is refused exactly when that would be more than `num` groups. */
    method IterFunc(tx: Tx) returns (ok: bool)
      requires NoneEmpty(Abstract())
      modifies this
      ensures Offered(old(Abstract()), tx, num, max) == Reply(Abstract(), ok)
      ensures NoneEmpty(Abstract())
      ensures var gs := if tx.toChain in old(chains) then old(chains)[tx.toChain] else [];
              var joins := gs != [] && |gs[|gs| - 1]| < max;
              && (ok <==> joins || old(size) < num) && size == old(size) + (if joins then 0 else 1)
              && (!ok ==> chains == old(chains) && all == old(all))
              && (ok ==> all == old(all) + [tx]
                         && chains == old(chains)[tx.toChain := if joins then gs[..|gs| - 1] + [gs[|gs| - 1] + [tx]] else gs + [[tx]]])
    {
      var c := tx.toChain;
      assert [] + [[tx]] == [[tx]];
      if c !in chains {
        size := size + 1;
        if size > num { return false; }
        chains := chains[c := [[tx]]];
      } else {
        var gs := chains[c];
        var last := gs[|gs| - 1];
        if |last| >= max {
          size := size + 1;
          if size > num { return false; }
          chains := chains[c := gs + [[tx]]];
        } else {
          chains := chains[c := gs[..|gs| - 1] + [last + [tx]]];
        }
      }
      all := all + [tx];
      ok := true;
    }

    /** iterTransaction. */
    method IterTransaction(va: ValidatorAccount)
      requires va.txsMap == (set tx <- va.txsList) && NoneEmpty(Abstract())
      modifies this, va`currTx
      ensures NoneEmpty(Abstract())
      ensures var from := Start(va.txsList, old(va.currTx));
              var w := Walked(old(Abstract()), va.txsList[from..], num, max);
              Abstract() == w.g && va.currTx == Moved(va.txsList, old(va.currTx), w.taken)
    {
      var from := 0;
      if va.currTx.Some? && va.currTx.value in va.txsMap { from := 1 + IndexOf(va.txsList, va.currTx.value); }
      WalkFrom(va, from);
    }

    /** The loop of iterTransaction. */
    method WalkFrom(va: ValidatorAccount, from: nat)
      requires from <= |va.txsList| && NoneEmpty(Abstract())
      modifies this, va`currTx
      ensures NoneEmpty(Abstract())
      ensures var w := Walked(old(Abstract()), va.txsList[from..], num, max);
              Abstract() == w.g && va.currTx == if w.taken == 0 then old(va.currTx) else Some(va.txsList[from + w.taken - 1])
    {
      var txs, i := va.txsList, from;
      ghost var cur, w := va.currTx, Walked(Abstract(), txs[from..], num, max);
      while i < |txs|
        invariant from <= i <= |txs| && NoneEmpty(Abstract())
        invariant WalkSoFar(Abstract(), txs, i, i - from, w, num, max)
        invariant va.currTx == if i == from then cur else Some(txs[i - 1])
      {
        ghost var g := Abstract();
        WalkStep(g, txs, i, i - from, w, num, max);
        var ok := IterFunc(txs[i]);
        assert Offered(g, txs[i], num, max) == Reply(Abstract(), ok);
        if !ok { return; }
        va.currTx := Some(txs[i]);
        i := i + 1;
      }
    }
  }

  /** With `done` transactions taken and the walk at i, what is left completes the walk w. */
  ghost predicate WalkSoFar(g: Groups, txs: seq<Tx>, i: nat, done: nat, w: Walk, num: nat, max: int)
    requires i <= |txs|
  {
    var t := Walked(g, txs[i..], num, max);
    w == Walk(t.g, done + t.taken)
  }

  lemma WalkStep(g: Groups, txs: seq<Tx>, i: nat, done: nat, w: Walk, num: nat, max: int)
    requires i < |txs| && WalkSoFar(g, txs, i, done, w, num, max)
    ensures var r := Offered(g, txs[i], num, max);
            if r.ok then WalkSoFar(r.g, txs, i + 1, done + 1, w, num, max) else w == Walk(r.g, done)
  {
    assert txs[i..][1..] == txs[i + 1..];
  }

  /** The block holds the groups of the chain whose index is not in `left`, once each, as the labels say. */
  ghost predicate Block(block: seq<seq<Tx>>, labels: seq<Label>, c: string, gs: seq<seq<Tx>>, left: set<nat>) {
    && |block| == |labels| && |labels| + |left| == |gs| && Distinct(labels)
    && (forall j <- left :: j < |gs|)
    && (forall l :: l in labels <==> l.chain == c && l.idx < |gs| && l.idx !in left)
    && (forall i :: 0 <= i < |labels| ==> labels[i].idx < |gs| && block[i] == gs[labels[i].idx])
  }

  lemma BlockNext(block: seq<seq<Tx>>, labels: seq<Label>, c: string, gs: seq<seq<Tx>>, left: set<nat>, j: nat)
    requires Block(block, labels, c, gs, left) && j in left
    ensures Block(block + [gs[j]], labels + [Label(c, j)], c, gs, left - {j})
  {
    assert Label(c, j) !in labels;
  }

  /** Writes one more group behind the block. */
  method PlaceOne(out: array<seq<Tx>>, ghost at: nat, group: seq<Tx>, k: nat, ghost was: seq<seq<Tx>>, ghost block: seq<seq<Tx>>)
    requires |was| == out.Length && k == at + |block| < |was| && out[..] == was[..at] + block + was[k..]
    modifies out
    ensures out[..] == was[..at] + (block + [group]) + was[k + 1..]
  {
    ghost var now := out[..];
    SplicePut(was, block, group, at);
    out[k] := group;
    assert out[..] == now[k := group];
  }

  /** Writes the groups of one chain to out[at..], in an arbitrary order. */
  method PlaceChain(out: array<seq<Tx>>, at: nat, c: string, gs: seq<seq<Tx>>)
    returns (ghost block: seq<seq<Tx>>, ghost labels: seq<Label>)
    requires at + |gs| <= out.Length
    modifies out
    ensures Block(block, labels, c, gs, {})
    ensures out[..] == old(out[..at]) + block + old(out[at + |gs|..])
  {
    block, labels := [], [];
    ghost var was := out[..];
    var left, k := Below(|gs|), at;
    while left != {}
      invariant Block(block, labels, c, gs, left) && k == at + |block|
      invariant out[..] == was[..at] + block + was[k..]
    {
      var j :| j in left;
      BlockNext(block, labels, c, gs, left, j);
      PlaceOne(out, at, gs[j], k, was, block);
      block, labels := block + [gs[j]], labels + [Label(c, j)];
      left := left - {j};
      k := k + 1;
    }
  }

  lemma SplicePut<T>(was: seq<T>, block: seq<T>, x: T, at: nat)
    requires at + |block| < |was|
    ensures (was[..at] + block + was[at + |block|..])[at + |block| := x] == was[..at] + (block + [x]) + was[at + |block| + 1..]
  {
  }

  function Below(n: nat): (r: set<nat>)
    ensures |r| == n && forall j :: j in r <==> 0 <= j < n
  {
    if n == 0 then {} else Below(n - 1) + {n - 1}
  }

  lemma PlacedAppend(out: seq<seq<Tx>>, labels: seq<Label>, chains: map<string, seq<seq<Tx>>>, left: set<string>,
                     local: string, c: string, block: seq<seq<Tx>>, more: seq<Label>)
    requires Placed(out, labels, chains, left, local) && c in left && c in chains
    requires c == local ==> labels == []
    requires Block(block, more, c, chains[c], {})
    ensures Placed(out + block, labels + more, chains, left - {c}, local)
  {
    var out', labels' := out + block, labels + more;
    forall i | 0 <= i < |more| ensures more[i].chain == c && block[i] == GroupOf(chains, more[i]) { assert more[i] in more; }
    forall i | 0 <= i < |labels| ensures labels[i].chain !in left { assert labels[i] in labels; }
    assert Distinct(labels') by {
      forall i, j | 0 <= i < j < |labels'| ensures labels'[i] != labels'[j] {
        if i >= |labels| { assert labels'[i] == more[i - |labels|]; }
        if j >= |labels| { assert labels'[j] == more[j - |labels|]; }
      }
    }
    forall l ensures l in labels' <==> Names(chains, l) && l.chain !in left - {c} {
      assert l in labels' <==> l in labels || l in more;
    }
    forall i | 0 <= i < |out'| ensures out'[i] == GroupOf(chains, labels'[i]) {
      if i >= |out| { assert out'[i] == block[i - |out|] && labels'[i] == more[i - |out|]; }
    }
  }

  lemma {:induction false} SumNonNegative<T>(f: T -> int, s: set<T>)
    requires forall x <- s :: f(x) >= 0
    ensures Sum(f, s) >= 0
    decreases |s|
  {
    if s != {} {
      var x :| x in s;
      SumPick(f, s, x);
      SumNonNegative(f, s - {x});
    }
  }

  ghost function Sizes(chains: map<string, seq<seq<Tx>>>): string -> int {
    (c: string) => if c in chains then |chains[c]| else 0
  }

  /** Room for the groups of c among those still to be placed. */
  lemma Room(chains: map<string, seq<seq<Tx>>>, left: set<string>, c: string)
    requires c in left && c in chains
    ensures Sum(Sizes(chains), left) == |chains[c]| + Sum(Sizes(chains), left - {c})
    ensures Sum(Sizes(chains), left - {c}) >= 0
  {
    SumPick(Sizes(chains), left, c);
    SumNonNegative(Sizes(chains), left - {c});
  }

  lemma CountIsSum(chains: map<string, seq<seq<Tx>>>)
    ensures Sum(Sizes(chains), chains.Keys) == Count(chains)
  {
    SumSame(Sizes(chains), (c: string) => if c in chains then |chains[c]| else 0, chains.Keys);
  }

  /** make([]types.Transactions, groupingNum+1), with everything in group 0. */
  method EmptyGroups(all: seq<Tx>, num: nat) returns (out: array<seq<Tx>>)
    ensures fresh(out) && out.Length == num + 1 && out[0] == all && forall i :: 1 <= i < out.Length ==> out[i] == []
  {
    out := new seq<Tx>[num + 1](_ => []);
    out[0] := all;
  }

  lemma NothingPlaced(out: seq<seq<Tx>>, chains: map<string, seq<seq<Tx>>>, local: string)
    requires out == []
    ensures Placed(out, [], chains, chains.Keys, local)
  {
  }

  /** The last part of FetchGroupingTxsInTxPool: group 0 holds everything, the local groups follow, then the
      others in an arbitrary order; the group index never leaves the array. */
  method Arrange(g: Groups, num: nat, ghost max: int, local: string) returns (out: array<seq<Tx>>, ghost labels: seq<Label>)
    requires Good(g, num, max)
    ensures fresh(out) && out.Length == num + 1 && out[0] == g.all
    ensures |labels| == Count(g.chains) <= num && Arranged(out[1..1 + |labels|], labels, g.chains, local)
    ensures forall i :: |labels| < i < out.Length ==> out[i] == []
  {
    out := EmptyGroups(g.all, num);
    labels := [];
    var groupIdx, left := 1, g.chains.Keys;
    NothingPlaced(out[1..1], g.chains, local);
    CountIsSum(g.chains);
    if local in left {
      groupIdx, labels := PlaceNext(out, groupIdx, labels, g, left, local, local, num);
      left := left - {local};
    }
    labels := PlaceOthers(out, groupIdx, labels, g, left, local, num);
  }

  /** The chains still to be placed, in an arbitrary order. */
  method PlaceOthers(out: array<seq<Tx>>, at: nat, ghost before: seq<Label>, g: Groups, others: set<string>,
                     ghost local: string, ghost num: nat)
    returns (ghost labels: seq<Label>)
    requires others <= g.chains.Keys && local !in others && at == 1 + |before| && at <= out.Length == num + 1
    requires |before| + Sum(Sizes(g.chains), others) == Count(g.chains) <= num
    requires Placed(out[1..at], before, g.chains, others, local)
    requires forall i :: at <= i < out.Length ==> out[i] == []
    modifies out
    ensures out[0] == old(out[0]) && |labels| == Count(g.chains) && Arranged(out[1..1 + |labels|], labels, g.chains, local)
    ensures forall i :: |labels| < i < out.Length ==> out[i] == []
  {
    labels := before;
    var groupIdx, left := at, others;
    while left != {}
      invariant left <= others && groupIdx == 1 + |labels| && groupIdx <= out.Length && out[0] == old(out[0])
      invariant |labels| + Sum(Sizes(g.chains), left) == Count(g.chains)
      invariant Placed(out[1..groupIdx], labels, g.chains, left, local)
      invariant forall i :: groupIdx <= i < out.Length ==> out[i] == []
    {
      var c :| c in left;
      groupIdx, labels := PlaceNext(out, groupIdx, labels, g, left, local, c, num);
      left := left - {c};
    }
  }

  /** One chain more. */
  method PlaceNext(out: array<seq<Tx>>, at: nat, ghost labels: seq<Label>, g: Groups, ghost left: set<string>,
                   ghost local: string, c: string, ghost num: nat)
    returns (next: nat, ghost labels': seq<Label>)
    requires c in g.chains && c in left && at == 1 + |labels| && at <= out.Length == num + 1
    requires |labels| + Sum(Sizes(g.chains), left) == Count(g.chains) <= num && (c == local ==> labels == [])
    requires Placed(out[1..at], labels, g.chains, left, local)
    requires forall i :: at <= i < out.Length ==> out[i] == []
    modifies out
    ensures out[0] == old(out[0]) && next == 1 + |labels'| && next <= out.Length
    ensures |labels'| + Sum(Sizes(g.chains), left - {c}) == Count(g.chains)
    ensures Placed(out[1..next], labels', g.chains, left - {c}, local)
    ensures forall i :: next <= i < out.Length ==> out[i] == []
  {
    Room(g.chains, left, c);
    ghost var was, before := out[..], out[1..at];
    ghost var block, more := PlaceChain(out, at, c, g.chains[c]);
    next, labels' := at + |g.chains[c]|, labels + more;
    Spliced(was, out[..], block, at);
    assert out[1..next] == before + block;
    PlacedAppend(before, labels, g.chains, left, local, c, block, more);
  }

  lemma Spliced<T>(was: seq<T>, now: seq<T>, block: seq<T>, at: nat)
    requires 1 <= at && at + |block| <= |was| && now == was[..at] + block + was[at + |block|..]
    ensures |now| == |was| && now[0] == was[0] && now[1..at + |block|] == was[1..at] + block
    ensures forall i :: at + |block| <= i < |was| ==> now[i] == was[i]
  {
  }

  /** The pending transactions and the cursor of an account when a fetch begins. */
  datatype Snapshot = Snapshot(txs: seq<Tx>, cur: Option<Tx>)

  /** The stretch of `taken` transactions from where the walk starts. */
  ghost predicate InSlice(t: Tx, s: Snapshot, taken: nat) {
    Start(s.txs, s.cur) + taken <= |s.txs| && t in s.txs[Start(s.txs, s.cur)..][..taken]
  }

  ghost predicate WithinLists(at: map<string, Snapshot>, taken: map<string, nat>) {
    taken.Keys <= at.Keys && forall a <- taken :: Start(at[a].txs, at[a].cur) + taken[a] <= |at[a].txs|
  }

  /** What was fetched is exactly what the cursors of the accounts walked passed. */
  ghost predicate Sliced(all: seq<Tx>, at: map<string, Snapshot>, taken: map<string, nat>) {
    && WithinLists(at, taken)
    && (forall t <- all :: exists a <- taken :: InSlice(t, at[a], taken[a]))
    && (forall a, t | a in taken && InSlice(t, at[a], taken[a]) :: t in all)
  }

  lemma SlicedNext(all: seq<Tx>, at: map<string, Snapshot>, taken: map<string, nat>, a: string, k: nat)
    requires Sliced(all, at, taken) && a in at && a !in taken
    requires Start(at[a].txs, at[a].cur) + k <= |at[a].txs|
    ensures Sliced(all + at[a].txs[Start(at[a].txs, at[a].cur)..][..k], at, taken[a := k])
  {
    var more, taken' := at[a].txs[Start(at[a].txs, at[a].cur)..][..k], taken[a := k];
    forall t | t in all + more ensures exists x <- taken' :: InSlice(t, at[x], taken'[x]) {
      if t in all {
        var x :| x in taken && InSlice(t, at[x], taken[x]);
        assert x in taken' && InSlice(t, at[x], taken'[x]);
      } else {
        assert a in taken' && InSlice(t, at[a], taken'[a]);
      }
    }
    forall x, t | x in taken' && InSlice(t, at[x], taken'[x]) ensures t in all + more {
      if x != a { assert InSlice(t, at[x], taken[x]); }
    }
  }

  /** The stretches passed, in the order in which the accounts were walked. */
  ghost function Stretches(order: seq<string>, at: map<string, Snapshot>, taken: map<string, nat>): seq<Tx>
    requires WithinLists(at, taken) && forall s <- order :: s in taken
  {
    if order == [] then []
    else
      var s := Last(order);
      Stretches(order[..|order| - 1], at, taken) + at[s].txs[Start(at[s].txs, at[s].cur)..][..taken[s]]
  }

  lemma {:induction false} StretchesFrame(order: seq<string>, at: map<string, Snapshot>, taken: map<string, nat>, s: string, k: nat)
    requires WithinLists(at, taken) && WithinLists(at, taken[s := k]) && (forall x <- order :: x in taken) && s !in order
    ensures Stretches(order, at, taken[s := k]) == Stretches(order, at, taken)
  {
    if order != [] { StretchesFrame(order[..|order| - 1], at, taken, s, k); }
  }

  // ---- One fetch after the other ----

  /** No account lists a transaction twice, and no two accounts list the same one. */
  ghost predicate Separate(at: map<string, Snapshot>) {
    && (forall a <- at :: Distinct(at[a].txs))
    && (forall a, b, t {:trigger t in at[a].txs, t in at[b].txs} | a in at && b in at && a != b && t in at[a].txs :: t !in at[b].txs)
  }

  /** The next walk of an account starts where the last one ended. */
  lemma StartsBehind(txs: seq<Tx>, cur: Option<Tx>, k: nat)
    requires Distinct(txs) && Start(txs, cur) + k <= |txs|
    ensures Start(txs, Moved(txs, cur, k)) == Start(txs, cur) + k
  {
    if k > 0 {
      var i := Start(txs, cur) + k - 1;
      assert txs[i] in txs;
      assert txs[IndexOf(txs, txs[i])] == txs[i];
    }
  }

  lemma SliceAt(txs: seq<Tx>, from: nat, k: nat, t: Tx) returns (i: nat)
    requires from + k <= |txs| && t in txs[from..][..k]
    ensures from <= i < from + k && txs[i] == t
  {
    var j :| 0 <= j < k && txs[from..][..k][j] == t;
    i := from + j;
  }

  lemma NotTwice(txs: seq<Tx>, from: nat, k: nat, k': nat, t: Tx)
    requires Distinct(txs) && from + k + k' <= |txs| && t in txs[from..][..k]
    ensures t !in txs[from + k..][..k']
  {
    var i := SliceAt(txs, from, k, t);
    var later := txs[from + k..][..k'];
    forall j | 0 <= j < |later| ensures later[j] != t {
      assert txs[i] != txs[from + k + j];
    }
  }

  /** Two walks of one account, the second from where the first ended. */
  lemma WalksDisjoint(s: Snapshot, k: nat, k': nat, t: Tx)
    requires Distinct(s.txs) && InSlice(t, s, k)
    ensures !InSlice(t, s.(cur := Moved(s.txs, s.cur, k)), k')
  {
    var from := Start(s.txs, s.cur);
    StartsBehind(s.txs, s.cur, k);
    if from + k + k' <= |s.txs| { NotTwice(s.txs, from, k, k', t); }
  }

  lemma SliceInList(t: Tx, s: Snapshot, k: nat)
    ensures InSlice(t, s, k) ==> t in s.txs
  {
    if InSlice(t, s, k) { var i := SliceAt(s.txs, Start(s.txs, s.cur), k, t); }
  }

  /** Two fetches with nothing pushed or committed in between return different transactions. */
  lemma FetchesDisjoint(at: map<string, Snapshot>, all: seq<Tx>, taken: map<string, nat>, all': seq<Tx>, taken': map<string, nat>, t: Tx)
    requires Separate(at) && Sliced(all, at, taken) && Sliced(all', Advanced(at, taken), taken') && t in all
    ensures t !in all'
  {
    var a :| a in taken && InSlice(t, at[a], taken[a]);
    SliceInList(t, at[a], taken[a]);
    var next := Advanced(at, taken);
    forall b | b in taken' ensures !InSlice(t, next[b], taken'[b]) {
      if b == a {
        WalksDisjoint(at[a], taken[a], taken'[a], t);
      } else {
        SliceInList(t, next[b], taken'[b]);
        assert next[b].txs == at[b].txs;
      }
    }
  }

  /** The cursors after `taken` transactions of each account walked. */
  ghost function Advanced(at: map<string, Snapshot>, taken: map<string, nat>): map<string, Snapshot>
    requires WithinLists(at, taken)
  {
    map s <- at :: if s in taken then at[s].(cur := Moved(at[s].txs, at[s].cur, taken[s])) else at[s]
  }

  lemma AdvancedNext(at: map<string, Snapshot>, taken: map<string, nat>, s: string, k: nat)
    requires WithinLists(at, taken) && s in at && s !in taken && Start(at[s].txs, at[s].cur) + k <= |at[s].txs|
    ensures Advanced(at, taken)[s] == at[s]
    ensures Advanced(at, taken[s := k]) == Advanced(at, taken)[s := at[s].(cur := Moved(at[s].txs, at[s].cur, k))]
  {
  }

  datatype Tour = Tour(g: Groups, taken: map<string, nat>)

  ghost predicate IsTour(order: seq<string>, at: map<string, Snapshot>) {
    Distinct(order) && forall s <- order :: s in at
  }

  /** The accounts walked in this order. */
  function Toured(order: seq<string>, at: map<string, Snapshot>, num: nat, max: int): (t: Tour)
    requires forall s <- order :: s in at
    ensures t.taken.Keys == set s <- order
    ensures forall s <- t.taken :: Start(at[s].txs, at[s].cur) + t.taken[s] <= |at[s].txs|
  {
    if order == [] then Tour(NO_GROUPS, map[])
    else
      var t := Toured(order[..|order| - 1], at, num, max);
      var s := Last(order);
      var w := Walked(t.g, at[s].txs[Start(at[s].txs, at[s].cur)..], num, max);
      assert order == order[..|order| - 1] + [s];
      Tour(w.g, t.taken[s := w.taken])
  }

  lemma TourNext(order: seq<string>, at: map<string, Snapshot>, s: string, num: nat, max: int)
    requires IsTour(order, at) && s in at && s !in order
    ensures IsTour(order + [s], at)
    ensures var t := Toured(order, at, num, max);
            var w := Walked(t.g, at[s].txs[Start(at[s].txs, at[s].cur)..], num, max);
            Toured(order + [s], at, num, max) == Tour(w.g, t.taken[s := w.taken])
  {
    assert (order + [s])[..|order|] == order;
  }

  /** Whatever the order of the accounts, the groups are good and hold exactly what was walked, in this order. */
  lemma {:induction false} TourGood(order: seq<string>, at: map<string, Snapshot>, num: nat, max: int)
    requires IsTour(order, at)
    ensures var t := Toured(order, at, num, max);
            && Good(t.g, num, max) && Sliced(t.g.all, at, t.taken)
            && t.g.all == Stretches(order, at, t.taken)
  {
    if order == [] {
      GoodAtStart(num, max);
    } else {
      var before, s := order[..|order| - 1], Last(order);
      TourGood(before, at, num, max);
      var t := Toured(before, at, num, max);
      var txs := at[s].txs[Start(at[s].txs, at[s].cur)..];
      var k := Walked(t.g, txs, num, max).taken;
      WalkKeeps(t.g, txs, num, max);
      SlicedNext(t.g.all, at, t.taken, s, k);
      StretchesFrame(before, at, t.taken, s, k);
    }
  }

  /** An account walked is at its end, or its next transaction needs a group beyond `num`. */
  ghost predicate Stopped(s: Snapshot, taken: nat, g: Groups, num: nat, max: int) {
    var i := Start(s.txs, s.cur) + taken;
    i == |s.txs| || (i < |s.txs| && Shut(g, s.txs[i], num, max))
  }

  ghost predicate AllStopped(order: seq<string>, at: map<string, Snapshot>, t: Tour, num: nat, max: int) {
    NoneEmpty(t.g) && forall s <- order :: s in at && s in t.taken && Stopped(at[s], t.taken[s], t.g, num, max)
  }

  lemma {:induction false} TourStops(order: seq<string>, at: map<string, Snapshot>, num: nat, max: int)
    requires IsTour(order, at)
    ensures AllStopped(order, at, Toured(order, at, num, max), num, max)
  {
    if order != [] {
      var before, s := order[..|order| - 1], Last(order);
      TourStops(before, at, num, max);
      assert order == before + [s] && s !in before;
      StopsNext(before, at, Toured(before, at, num, max), s, num, max);
    }
  }

  lemma StopsNext(before: seq<string>, at: map<string, Snapshot>, t: Tour, s: string, num: nat, max: int)
    requires AllStopped(before, at, t, num, max) && s in at && s !in before
    ensures var w := Walked(t.g, at[s].txs[Start(at[s].txs, at[s].cur)..], num, max);
            AllStopped(before + [s], at, Tour(w.g, t.taken[s := w.taken]), num, max)
  {
    var txs := at[s].txs[Start(at[s].txs, at[s].cur)..];
    WalkStops(t.g, txs, num, max);
    var w := Walked(t.g, txs, num, max);
    if txs != [] { WalkShut(t.g, txs, txs[0], num, max); }
    forall x | x in before + [s] ensures Stopped(at[x], t.taken[s := w.taken][x], w.g, num, max) {
      if x != s { StaysStopped(at[x], t.taken[x], t.g, txs, num, max); }
    }
  }

  /** What was there before the last account was walked. */
  lemma EarlierStretches(before: seq<string>, s: string, at: map<string, Snapshot>, num: nat, max: int)
    requires IsTour(before, at) && s in at && s !in before
    ensures var taken := Toured(before + [s], at, num, max).taken;
            && WithinLists(at, taken) && (forall x <- before :: x in taken)
            && Toured(before, at, num, max).g.all == Stretches(before, at, taken)
  {
    var t := Toured(before, at, num, max);
    TourNext(before, at, s, num, max);
    TourGood(before, at, num, max);
    StretchesFrame(before, at, t.taken, s, Toured(before + [s], at, num, max).taken[s]);
  }

  /** An account walked is at its end, or no group can take its next transaction. */
  ghost predicate Ended(s: Snapshot, taken: nat, groups: seq<seq<Tx>>, max: int) {
    var i := Start(s.txs, s.cur) + taken;
    i == |s.txs| || (i < |s.txs| && NoRoom(groups, s.txs[i], max))
  }

  lemma ShutAnywhere(g: Groups, num: nat, max: int, out: seq<seq<Tx>>, labels: seq<Label>, local: string)
    requires Good(g, num, max) && |out| == num + 1 && |labels| == Count(g.chains) <= num
    requires Arranged(out[1..1 + |labels|], labels, g.chains, local)
    ensures forall tx | Shut(g, tx, num, max) :: NoRoom(out[1..], tx, max)
  {
    var groups := out[1..1 + |labels|];
    assert g.size > num ==> groups == out[1..];
    forall tx | Shut(g, tx, num, max) ensures NoRoom(out[1..], tx, max) {
      ShutIsNoRoom(g, num, max, groups, labels, local, tx);
    }
  }

  lemma AllEnded(order: seq<string>, at: map<string, Snapshot>, t: Tour, num: nat, max: int, groups: seq<seq<Tx>>)
    requires AllStopped(order, at, t, num, max) && forall tx | Shut(t.g, tx, num, max) :: NoRoom(groups, tx, max)
    ensures forall s <- order :: Ended(at[s], t.taken[s], groups, max)
  {
  }

  /** What one fetch takes: the accounts in some order, the stretches walked and nothing else, in good groups. Every account
      is walked unless groups have no positive size and more than max * num transactions are there, and the walk then ends
      at once; an account walked stops only where all groups are shut. */
  ghost predicate Fetched(at: map<string, Snapshot>, order: seq<string>, t: Tour, num: nat, max: int, limit: int) {
    && IsTour(order, at) && t.taken.Keys == (set s <- order)
    && Good(t.g, num, max) && Sliced(t.g.all, at, t.taken) && t.g.all == Stretches(order, at, t.taken)
    && ((forall s <- at :: s in t.taken) || (|t.g.all| > limit && max < 1))
    && (|order| > 1 ==> |Stretches(order[..|order| - 1], at, t.taken)| <= limit)
    && AllStopped(order, at, t, num, max)
  }

  lemma TourFetches(order: seq<string>, at: map<string, Snapshot>, num: nat, max: int, limit: int)
    requires IsTour(order, at)
    requires var t := Toured(order, at, num, max);
             (forall s <- at :: s in order) || (|t.g.all| > limit && (Good(t.g, num, max) ==> max < 1))
    requires |order| > 1 ==> |Toured(order[..|order| - 1], at, num, max).g.all| <= limit
    ensures Fetched(at, order, Toured(order, at, num, max), num, max, limit)
  {
    TourGood(order, at, num, max);
    TourStops(order, at, num, max);
    if |order| > 1 {
      var before, s := order[..|order| - 1], Last(order);
      Split(order);
      EarlierStretches(before, s, at, num, max);
      SameStretches(order, before, s, at, num, max);
    }
  }

  lemma Split<T>(s: seq<T>)
    requires s != []
    ensures s == s[..|s| - 1] + [Last(s)]
  {
  }

  lemma SameStretches(order: seq<string>, before: seq<string>, s: string, at: map<string, Snapshot>, num: nat, max: int)
    requires order == before + [s] && (forall x <- order :: x in at)
    requires var taken := Toured(before + [s], at, num, max).taken;
             && WithinLists(at, taken) && (forall x <- before :: x in taken)
             && Toured(before, at, num, max).g.all == Stretches(before, at, taken)
    ensures order[..|order| - 1] == before
    ensures var taken := Toured(order, at, num, max).taken;
            && WithinLists(at, taken) && (forall x <- before :: x in taken)
            && Toured(order[..|order| - 1], at, num, max).g.all == Stretches(order[..|order| - 1], at, taken)
  {
  }

  /** More than max * num transactions cannot be there while groups have a positive size. */
  lemma OnlyWithoutSize(g: Groups, num: nat, max: int)
    requires |g.all| > max * num
    ensures Good(g, num, max) ==> max < 1
  {
    if Good(g, num, max) { FetchedFits(g, num, max); }
  }

  lemma StaysStopped(s: Snapshot, taken: nat, g: Groups, txs: seq<Tx>, num: nat, max: int)
    requires NoneEmpty(g) && Stopped(s, taken, g, num, max)
    ensures Stopped(s, taken, Walked(g, txs, num, max).g, num, max)
  {
    var i := Start(s.txs, s.cur) + taken;
    if i < |s.txs| { WalkShut(g, txs, s.txs[i], num, max); }
  }

  class Validator {
    const accounts: map<string, ValidatorAccount>

    constructor (accounts: map<string, ValidatorAccount>)
      ensures this.accounts == accounts
    {
      this.accounts := accounts;
    }

    ghost predicate OnePerSender() {
      forall s <- accounts, t <- accounts :: s != t ==> accounts[s] != accounts[t]
    }

    /** One account object per sender, each with its hash map in step with its list. */
    ghost predicate Valid()
      reads accounts.Values
    {
      && OnePerSender()
      && (forall s <- accounts :: accounts[s].txsMap == (set tx <- accounts[s].txsList))
    }

    ghost function Cursors(): map<string, Snapshot>
      reads accounts.Values
    {
      map s <- accounts :: Snapshot(accounts[s].txsList, accounts[s].currTx)
    }

    /** The walk of one account. */
    method WalkOne(grouper: Grouper, ghost s: string, a: ValidatorAccount) returns (ghost k: nat)
      requires Valid() && s in accounts && accounts[s] == a && NoneEmpty(grouper.Abstract())
      modifies grouper, a`currTx
      ensures Valid() && NoneEmpty(grouper.Abstract())
      ensures var sn := old(Cursors())[s];
              && Start(sn.txs, sn.cur) + k <= |sn.txs|
              && Walked(old(grouper.Abstract()), sn.txs[Start(sn.txs, sn.cur)..], grouper.num, grouper.max) == Walk(grouper.Abstract(), k)
              && Cursors() == old(Cursors())[s := sn.(cur := Moved(sn.txs, sn.cur, k))]
    {
      ghost var txs := a.txsList[Start(a.txsList, a.currTx)..];
      k := Walked(grouper.Abstract(), txs, grouper.num, grouper.max).taken;
      grouper.IterTransaction(a);
    }

    /** The accounts of `order` have been walked from `at` on. */
    ghost predicate WalkedOver(grouper: Grouper, order: seq<string>, at: map<string, Snapshot>)
      reads grouper, accounts.Values
    {
      && IsTour(order, at) && at.Keys == accounts.Keys && NoneEmpty(grouper.Abstract())
      && var t := Toured(order, at, grouper.num, grouper.max);
         grouper.Abstract() == t.g && Cursors() == Advanced(at, t.taken)
    }

    /** On the way: `left` are the other accounts, and more than one account was only walked while there was room. */
    ghost predicate Touring(grouper: Grouper, order: seq<string>, at: map<string, Snapshot>, left: set<string>, limit: int)
      reads grouper, accounts.Values
    {
      && WalkedOver(grouper, order, at) && left == accounts.Keys - (set s <- order)
      && (|order| > 1 ==> |Toured(order[..|order| - 1], at, grouper.num, grouper.max).g.all| <= limit)
    }

    /** One account more. */
    method WalkNext(grouper: Grouper, s: string, ghost order: seq<string>, ghost at: map<string, Snapshot>, ghost left: set<string>,
                    ghost limit: int)
      requires Valid() && Touring(grouper, order, at, left, limit) && s in left
      requires order == [] || |grouper.all| <= limit
      modifies grouper, accounts.Values`currTx
      ensures Valid() && Touring(grouper, order + [s], at, left - {s}, limit)
    {
      ghost var t := Toured(order, at, grouper.num, grouper.max);
      TourNext(order, at, s, grouper.num, grouper.max);
      ghost var k := WalkOne(grouper, s, accounts[s]);
      AdvancedNext(at, t.taken, s, k);
      assert (order + [s])[..|order|] == order;
    }

    /** The walk over the accounts, in an arbitrary order: it ends at the last one, or once more than max * num transactions
        are there. */
    method WalkAll(grouper: Grouper) returns (ghost order: seq<string>, ghost left: set<string>)
      requires Valid() && grouper.Abstract() == NO_GROUPS
      modifies grouper, accounts.Values`currTx
      ensures Valid() && Touring(grouper, order, old(Cursors()), left, grouper.max * grouper.num)
      ensures left == {} || |grouper.all| > grouper.max * grouper.num
    {
      ghost var at := Cursors();
      var others, room, limit := accounts.Keys, true, grouper.max * grouper.num;
      order := [];
      while others != {} && room
        invariant others <= accounts.Keys && Valid() && Touring(grouper, order, at, others, limit)
        invariant room <==> order == [] || |grouper.all| <= limit
      {
        var s :| s in others;
        WalkNext(grouper, s, order, at, others, limit);
        order, others := order + [s], others - {s};
        room := |grouper.all| <= limit;
      }
      left := others;
    }

    lemma NoneLeft(order: seq<string>, at: map<string, Snapshot>)
      requires at.Keys == accounts.Keys && accounts.Keys - (set s <- order) == {}
      ensures forall s <- at :: s in order
    {
      forall s | s in at ensures s in order { assert s in accounts.Keys && s !in accounts.Keys - (set s <- order); }
    }

    /** All accounts walked with a new grouping. */
    method Fetch(num: nat, max: int) returns (g: Groups, ghost order: seq<string>, ghost taken: map<string, nat>)
      requires Valid()
      modifies accounts.Values`currTx
      ensures Valid() && Fetched(old(Cursors()), order, Tour(g, taken), num, max, max * num)
      ensures Cursors() == Advanced(old(Cursors()), taken)
    {
      var grouper := new Grouper(num, max);
      ghost var at := Cursors();
      ghost var left;
      order, left := WalkAll(grouper);
      g := Groups(grouper.chains, grouper.size, grouper.all);
      if left == {} { NoneLeft(order, at); } else { OnlyWithoutSize(g, num, max); }
      TourFetches(order, at, num, max, max * num);
      taken := Toured(order, at, num, max).taken;
    }

    /** FetchGroupingTxsInTxPool: the next stretch of every account that is walked, in group 0 and divided over the others.
        Every account is walked, unless groups have no positive size and more than max * num transactions are there; and an
        account stops before its end only when all groups are in use and none of them can take its next transaction. */
    method FetchGroupingTxsInTxPool(num: nat, max: int, local: string)
      returns (out: array<seq<Tx>>, ghost g: Groups, ghost labels: seq<Label>, ghost order: seq<string>, ghost taken: map<string, nat>)
      requires Valid()
      modifies accounts.Values`currTx
      ensures fresh(out) && out.Length == num + 1 && out[0] == g.all && Good(g, num, max)
      ensures |labels| <= num && Arranged(out[1..1 + |labels|], labels, g.chains, local)
      ensures forall i :: |labels| < i < out.Length ==> out[i] == []
      ensures Sliced(out[0], old(Cursors()), taken) && (forall s <- order :: s in taken) && out[0] == Stretches(order, old(Cursors()), taken)
      ensures Cursors() == Advanced(old(Cursors()), taken)
      ensures (forall s <- accounts :: s in taken) || (|out[0]| > max * num && max < 1)
      ensures |order| > 1 ==> |Stretches(order[..|order| - 1], old(Cursors()), taken)| <= max * num
      ensures forall s <- order :: Ended(old(Cursors())[s], taken[s], out[1..], max)
    {
      var groups;
      ghost var at := Cursors();
      groups, order, taken := Fetch(num, max);
      ghost var cursors := Cursors();
      out, labels := Arrange(groups, num, max, local);
      assert Cursors() == cursors;
      g := groups;
      ShutAnywhere(g, num, max, out[..], labels, local);
      AllEnded(order, at, Tour(g, taken), num, max, out[1..]);
    }
  }

  lemma GoodAtStart(num: nat, max: int)
    ensures Good(NO_GROUPS, num, max)
  {
    var none: map<string, seq<seq<Tx>>> := map[];
    assert none.Keys == {};
  }
}
