/**
 * The pool of one account (core/blockchain/validator.go): pending transactions in nonce order, orphans that
 * came too early, and the balance and nonce left after them. Transaction hashes are collision-free, so a
 * transaction stands for its hash.
 */
module Pool {
  import opened Words

  const MAX_ORPHANS: nat := 1000000

  datatype TxType =
    | Atomic | AcrossChain | Merged | Backfront | Distribut | Issue
    | JSContractInit | LuaContractInit | ContractInvoke | Unknown(code: uint32)

  datatype Tx = Tx(sender: string, kind: TxType, nonce: uint32, amount: int, toChain: string, payload: nat)

  /** The types whose nonce and amount are both checked. */
  predicate Checked(t: TxType) {
    !t.Merged? && !t.Issue? && !t.Unknown?
  }

  datatype Account = Account(orphans: seq<Tx>, txs: seq<Tx>, keys: set<Tx>, amount: int, nonce: uint32)

  /** newValidatorAccount. */
  function Opened(amount: int, nonce: uint32): Account {
    Account([], [], {}, amount, Inc32(nonce))
  }

  // ---- addTransaction ----

  predicate Acceptable(va: Account, tx: Tx) {
    if tx.kind == Issue then va.nonce == tx.nonce
    else if Checked(tx.kind) then va.nonce == tx.nonce && va.amount >= tx.amount
    else true
  }

  /** Where an orphan goes: behind the last one with a smaller nonce. */
  function Position(orphans: seq<Tx>, nonce: uint32): (p: nat)
    ensures p <= |orphans|
    ensures p > 0 ==> orphans[p - 1].nonce < nonce
    ensures forall i :: p <= i < |orphans| ==> orphans[i].nonce >= nonce
  {
    if orphans == [] then 0
    else if nonce > orphans[|orphans| - 1].nonce then |orphans|
    else Position(orphans[..|orphans| - 1], nonce)
  }

  function Orphaned(orphans: seq<Tx>, tx: Tx): seq<Tx> {
    var os := if |orphans| > MAX_ORPHANS then orphans[1..] else orphans;
    var p := Position(os, tx.nonce);
    os[..p] + [tx] + os[p..]
  }

  /** The orphan stands behind the last one with a smaller nonce; of more than a million orphans the first is dropped. */
  ghost predicate OrphanAdded(before: seq<Tx>, tx: Tx, after: seq<Tx>) {
    var os := if |before| > 1000000 then before[1..] else before;
    exists p | 0 <= p <= |os| :: InsertedAt(os, p, tx, after)
  }

  ghost predicate InsertedAt(os: seq<Tx>, p: nat, tx: Tx, after: seq<Tx>)
    requires p <= |os|
  {
    && after == os[..p] + [tx] + os[p..]
    && (p > 0 ==> os[p - 1].nonce < tx.nonce) && forall i :: p <= i < |os| ==> os[i].nonce >= tx.nonce
  }

  function Added(va: Account, tx: Tx): Account {
    if Acceptable(va, tx) then
      va.(txs := va.txs + [tx], keys := va.keys + {tx}, amount := va.amount - tx.amount,
          nonce := if tx.kind == Merged then va.nonce else Inc32(va.nonce))
    else if tx.nonce > va.nonce then va.(orphans := Orphaned(va.orphans, tx))
    else va
  }

  // ---- processOrphan ----

  datatype Drain = Drain(taken: seq<Tx>, left: seq<Tx>, next: uint32)

  /** From the front: stale orphans are thrown away, those whose turn it is are taken, and the first one
      that is too early stops. */
  function Drained(orphans: seq<Tx>, nonce: uint32): Drain {
    if orphans == [] || orphans[0].nonce > nonce then Drain([], orphans, nonce)
    else if orphans[0].nonce < nonce then Drained(orphans[1..], nonce)
    else
      var d := Drained(orphans[1..], Inc32(nonce));
      d.(taken := [orphans[0]] + d.taken)
  }

  function AddedAll(va: Account, txs: seq<Tx>): Account
    decreases txs
  {
    if txs == [] then va else AddedAll(Added(va, txs[0]), txs[1..])
  }

  /** The orphans whose turn it is are taken out and offered again. */
  function Settled(va: Account): Account {
    var d := Drained(va.orphans, va.nonce);
    AddedAll(va.(orphans := d.left), d.taken)
  }

  /** PushTxInTxPool for a transaction that passed the checks on its signature and chains. */
  function Pushed(va: Account, tx: Tx): Account {
    Added(Settled(va), tx)
  }

  // ---- committedAndRemoveTransaction ----

  /** The head leaves; a transaction that is not pending is charged to the account. */
  function Committed(va: Account, tx: Tx): Account
    requires tx in va.keys ==> va.txs != [] && va.txs[0] == tx
  {
    if tx in va.keys then va.(txs := va.txs[1..], keys := va.keys - {tx})
    else va.(amount := va.amount - tx.amount, nonce := if tx.nonce >= va.nonce then Inc32(tx.nonce) else va.nonce)
  }

  // ---- The invariant ----

  /** n + k, wrapping at 32 bits. */
  function Plus32(n: uint32, k: int): uint32 {
    (n + k) % TWO_32
  }

  ghost predicate Consecutive(txs: seq<Tx>, next: uint32) {
    forall i :: 0 <= i < |txs| ==> txs[i].nonce == Plus32(next, i - |txs|)
  }

  ghost predicate SortedByNonce(orphans: seq<Tx>) {
    forall i, j :: 0 <= i < j < |orphans| ==> orphans[i].nonce <= orphans[j].nonce
  }

  ghost predicate AllChecked(txs: seq<Tx>) {
    forall i :: 0 <= i < |txs| ==> Checked(txs[i].kind)
  }

  ghost predicate Inv(va: Account) {
    && Consecutive(va.txs, va.nonce)
    && va.keys == (set tx <- va.txs)
    && SortedByNonce(va.orphans)
    && va.amount >= 0
    && AllChecked(va.orphans)
  }

  /** The pending transactions are all different as long as there are at most 2^32 of them. */
  lemma PendingDistinct(va: Account, i: nat, j: nat)
    requires Inv(va) && |va.txs| <= TWO_32 && i < j < |va.txs|
    ensures va.txs[i] != va.txs[j]
  {
    assert va.txs[j].nonce == Plus32(va.nonce, j - |va.txs|);
    assert va.txs[i].nonce == Plus32(va.nonce, i - |va.txs|);
  }

  lemma ConsecutiveAppend(txs: seq<Tx>, next: uint32, tx: Tx)
    requires Consecutive(txs, next) && tx.nonce == next
    ensures Consecutive(txs + [tx], Inc32(next))
  {
    var txs', next' := txs + [tx], Inc32(next);
    forall i | 0 <= i < |txs'| ensures txs'[i].nonce == Plus32(next', i - |txs'|) {
      var k := i - |txs|;
      assert (next + 1 + (k - 1)) % TWO_32 == Plus32(next', k - 1);
    }
  }

  lemma InsertKeeps(os: seq<Tx>, p: nat, tx: Tx)
    requires SortedByNonce(os) && AllChecked(os) && Checked(tx.kind) && p <= |os|
    requires p > 0 ==> os[p - 1].nonce < tx.nonce
    requires forall i :: p <= i < |os| ==> os[i].nonce >= tx.nonce
    ensures SortedByNonce(os[..p] + [tx] + os[p..]) && AllChecked(os[..p] + [tx] + os[p..])
  {
    var r := os[..p] + [tx] + os[p..];
    forall i | 0 <= i < |r| ensures r[i] == if i < p then os[i] else if i == p then tx else os[i - 1] {}
    forall i | 0 <= i < p ensures os[i].nonce <= tx.nonce { assert os[i].nonce <= os[p - 1].nonce; }
  }

  lemma RestKeeps(orphans: seq<Tx>)
    requires SortedByNonce(orphans) && AllChecked(orphans)
    ensures orphans != [] ==> SortedByNonce(orphans[1..]) && AllChecked(orphans[1..])
  {
  }

  lemma OrphanKeeps(orphans: seq<Tx>, tx: Tx)
    requires SortedByNonce(orphans) && AllChecked(orphans) && Checked(tx.kind)
    ensures SortedByNonce(Orphaned(orphans, tx)) && AllChecked(Orphaned(orphans, tx))
  {
    var os := if |orphans| > MAX_ORPHANS then orphans[1..] else orphans;
    RestKeeps(orphans);
    InsertKeeps(os, Position(os, tx.nonce), tx);
  }

  lemma AddKeeps(va: Account, tx: Tx)
    requires Inv(va) && Checked(tx.kind)
    ensures Inv(Added(va, tx))
  {
    if Acceptable(va, tx) {
      ConsecutiveAppend(va.txs, va.nonce, tx);
      assert (set t <- va.txs + [tx]) == (set t <- va.txs) + {tx};
    } else if tx.nonce > va.nonce {
      OrphanKeeps(va.orphans, tx);
    }
  }

  lemma {:induction false} AddAllKeeps(va: Account, txs: seq<Tx>)
    requires Inv(va) && AllChecked(txs)
    ensures Inv(AddedAll(va, txs))
    decreases txs
  {
    if txs != [] {
      AddKeeps(va, txs[0]);
      AddAllKeeps(Added(va, txs[0]), txs[1..]);
    }
  }

  // ---- What draining does ----

  /** The orphans whose turn it is come out with consecutive nonces, what stays is a suffix of the list, and
      nothing that stays could have been taken or thrown away (unless the nonce wrapped). */
  lemma {:induction false} DrainSpec(orphans: seq<Tx>, nonce: uint32)
    requires SortedByNonce(orphans)
    ensures var d := Drained(orphans, nonce);
            && (forall i :: 0 <= i < |d.taken| ==> d.taken[i] in orphans && d.taken[i].nonce == Plus32(nonce, i))
            && d.next == Plus32(nonce, |d.taken|)
            && |d.left| <= |orphans| && d.left == orphans[|orphans| - |d.left|..]
            && (forall o <- d.left :: o.nonce > d.next)
            && forall o <- orphans :: o in d.taken || o in d.left || o.nonce < nonce + |d.taken|
  {
    if orphans != [] && orphans[0].nonce <= nonce {
      var rest := orphans[1..];
      assert orphans == [orphans[0]] + rest;
      if orphans[0].nonce < nonce {
        DrainSpec(rest, nonce);
      } else {
        DrainSpec(rest, Inc32(nonce));
        DrainTake(orphans, nonce);
      }
    }
  }

  lemma Plus32Step(nonce: uint32, i: int)
    ensures Plus32(Inc32(nonce), i) == Plus32(nonce, i + 1)
  {
    if nonce + 1 == TWO_32 { assert (nonce + (i + 1)) % TWO_32 == (i + TWO_32) % TWO_32; }
  }

  lemma DrainTake(orphans: seq<Tx>, nonce: uint32)
    requires orphans != [] && orphans[0].nonce == nonce
    requires var d := Drained(orphans[1..], Inc32(nonce));
             && (forall i :: 0 <= i < |d.taken| ==> d.taken[i] in orphans[1..] && d.taken[i].nonce == Plus32(Inc32(nonce), i))
             && d.next == Plus32(Inc32(nonce), |d.taken|)
    ensures var d := Drained(orphans, nonce);
            && (forall i :: 0 <= i < |d.taken| ==> d.taken[i] in orphans && d.taken[i].nonce == Plus32(nonce, i))
            && d.next == Plus32(nonce, |d.taken|)
  {
    var t := Drained(orphans[1..], Inc32(nonce)).taken;
    var taken := [orphans[0]] + t;
    Plus32Step(nonce, |t|);
    assert orphans == [orphans[0]] + orphans[1..];
    forall i | 0 <= i < |taken| ensures taken[i] in orphans && taken[i].nonce == Plus32(nonce, i) {
      TakenAt(orphans[0], t, nonce, i);
    }
  }

  lemma TakenAt(o: Tx, t: seq<Tx>, nonce: uint32, i: nat)
    requires o.nonce == nonce && i <= |t|
    requires forall j :: 0 <= j < |t| ==> t[j].nonce == Plus32(Inc32(nonce), j)
    ensures ([o] + t)[i].nonce == Plus32(nonce, i)
    ensures ([o] + t)[i] == o || ([o] + t)[i] in t
  {
    if i > 0 {
      Plus32Step(nonce, i - 1);
      assert ([o] + t)[i] == t[i - 1];
    }
  }

  lemma DrainChecked(orphans: seq<Tx>, nonce: uint32)
    requires SortedByNonce(orphans) && AllChecked(orphans)
    ensures var d := Drained(orphans, nonce); AllChecked(d.taken) && AllChecked(d.left) && SortedByNonce(d.left)
  {
    DrainSpec(orphans, nonce);
    var d := Drained(orphans, nonce);
    forall i | 0 <= i < |d.taken| ensures Checked(d.taken[i].kind) { assert d.taken[i] in orphans; }
  }

  lemma SettleKeeps(va: Account)
    requires Inv(va)
    ensures Inv(Settled(va))
  {
    DrainChecked(va.orphans, va.nonce);
    var d := Drained(va.orphans, va.nonce);
    AddAllKeeps(va.(orphans := d.left), d.taken);
  }

  lemma PushKeeps(va: Account, tx: Tx)
    requires Inv(va) && Checked(tx.kind)
    ensures Inv(Pushed(va, tx))
  {
    SettleKeeps(va);
    AddKeeps(Settled(va), tx);
  }

  lemma HeadKeeps(va: Account)
    requires Inv(va) && va.txs != [] && |va.txs| <= TWO_32
    ensures Inv(Committed(va, va.txs[0]))
  {
    var rest := va.txs[1..];
    forall i | 0 <= i < |rest| ensures rest[i].nonce == Plus32(va.nonce, i - |rest|) {
      assert rest[i] == va.txs[i + 1];
    }
    assert (set tx <- rest) == va.keys - {va.txs[0]} by {
      forall i | 0 <= i < |rest| ensures rest[i] != va.txs[0] { PendingDistinct(va, 0, i + 1); }
      assert va.txs == [va.txs[0]] + rest;
    }
  }

  /** A committed transaction that was never pending keeps the invariant exactly when the balance covers it
      and it does not move the nonce under pending transactions. */
  lemma ForeignCommitExact(va: Account, tx: Tx)
    requires Inv(va) && tx !in va.keys
    ensures Inv(Committed(va, tx)) <==>
              va.amount >= tx.amount && (va.txs == [] || tx.nonce < va.nonce || Inc32(tx.nonce) == va.nonce)
  {
    var next := Committed(va, tx).nonce;
    if va.txs != [] {
      var last := |va.txs| - 1;
      assert va.txs[last].nonce == Plus32(va.nonce, -1);
      MovedNonce(va.nonce, next);
      assert Consecutive(va.txs, next) ==> va.txs[last].nonce == Plus32(next, last - |va.txs|);
    }
  }

  lemma MovedNonce(n: uint32, m: uint32)
    ensures Plus32(m, -1) == Plus32(n, -1) <==> m == n
  {
    assert Plus32(n, -1) == if n == 0 then TWO_32 - 1 else n - 1;
    assert Plus32(m, -1) == if m == 0 then TWO_32 - 1 else m - 1;
  }

  // ---- Runs ----

  datatype Event = Push(tx: Tx) | CommitHead | Credit(amount: nat)

  function After(va: Account, e: Event): Account {
    match e
    case Push(tx) => Pushed(va, tx)
    case CommitHead =>
      if va.txs == [] || va.txs[0] !in va.keys then va else Settled(Committed(va, va.txs[0]))
    case Credit(amount) => va.(amount := va.amount + amount)
  }

  function Ran(amount: nat, nonce: uint32, es: seq<Event>): Account {
    if es == [] then Opened(amount, nonce) else After(Ran(amount, nonce, es[..|es| - 1]), es[|es| - 1])
  }

  /** No pool ever holds 2^32 transactions along the run. */
  ghost predicate Small(amount: nat, nonce: uint32, es: seq<Event>) {
    forall n :: 0 <= n <= |es| ==> |Ran(amount, nonce, es[..n]).txs| <= TWO_32
  }

  /** Over every run of pushes, commits of the head and incoming payments the pending nonces are consecutive
      and end just below the next nonce, the hash map holds exactly the pending transactions, the orphans
      are sorted and the balance covers what is pending. */
  lemma {:induction false} PoolInvariant(amount: nat, nonce: uint32, es: seq<Event>)
    requires Small(amount, nonce, es)
    requires forall i :: 0 <= i < |es| && es[i].Push? ==> Checked(es[i].tx.kind)
    ensures Inv(Ran(amount, nonce, es))
  {
    if es != [] {
      var before, e := es[..|es| - 1], es[|es| - 1];
      SmallBefore(amount, nonce, es);
      PoolInvariant(amount, nonce, before);
      var va := Ran(amount, nonce, before);
      match e
      case Push(tx) => PushKeeps(va, tx);
      case CommitHead =>
        if va.txs != [] { HeadKeeps(va); SettleKeeps(Committed(va, va.txs[0])); }
      case Credit(_) =>
    }
  }

  // ---- Which nonces are pending ----

  /** The k-th nonce behind n. */
  function Nth(n: uint32, k: nat): uint32 {
    if k == 0 then n else Inc32(Nth(n, k - 1))
  }

  lemma {:induction false} NthIsSum(n: uint32, k: nat)
    ensures Nth(n, k) == (n + k) % TWO_32
  {
    if k > 0 {
      NthIsSum(n, k - 1);
      NextOf(n + k - 1);
    }
  }

  lemma NextOf(x: int)
    ensures (x + 1) % TWO_32 == Inc32(x % TWO_32)
  {
    var q, r := x / TWO_32, x % TWO_32;
    assert x + 1 == q * TWO_32 + (r + 1);
    if r + 1 == TWO_32 { assert x + 1 == (q + 1) * TWO_32; }
  }

  /** Behind c transactions committed, the pending ones carry the next nonces in order, and the next one to come follows. */
  ghost predicate Numbered(va: Account, stored: uint32, c: nat) {
    && va.nonce == Nth(stored, 1 + c + |va.txs|)
    && forall i | 0 <= i < |va.txs| :: va.txs[i].nonce == Nth(stored, 1 + c + i)
  }

  lemma AddNumbered(va: Account, stored: uint32, c: nat, tx: Tx)
    requires Numbered(va, stored, c) && Checked(tx.kind)
    ensures Numbered(Added(va, tx), stored, c)
  {
    if Acceptable(va, tx) { assert Nth(stored, 1 + c + |va.txs| + 1) == Inc32(va.nonce); }
  }

  lemma {:induction false} AddAllNumbered(va: Account, stored: uint32, c: nat, txs: seq<Tx>)
    requires Numbered(va, stored, c) && AllChecked(txs)
    ensures Numbered(AddedAll(va, txs), stored, c)
    decreases txs
  {
    if txs != [] {
      AddNumbered(va, stored, c, txs[0]);
      AddAllNumbered(Added(va, txs[0]), stored, c, txs[1..]);
    }
  }

  lemma SettleNumbered(va: Account, stored: uint32, c: nat)
    requires Numbered(va, stored, c) && Inv(va)
    ensures Numbered(Settled(va), stored, c)
  {
    DrainChecked(va.orphans, va.nonce);
    var d := Drained(va.orphans, va.nonce);
    AddAllNumbered(va.(orphans := d.left), stored, c, d.taken);
  }

  /** Whether an event commits a transaction. */
  predicate Commits(va: Account, e: Event) {
    e.CommitHead? && va.txs != []
  }

  lemma EventNumbered(va: Account, stored: uint32, c: nat, e: Event)
    requires Numbered(va, stored, c) && Inv(va) && |va.txs| <= TWO_32 && (e.Push? ==> Checked(e.tx.kind))
    ensures Numbered(After(va, e), stored, if Commits(va, e) then c + 1 else c)
  {
    match e
    case Push(tx) =>
      SettleNumbered(va, stored, c);
      AddNumbered(Settled(va), stored, c, tx);
    case CommitHead =>
      if va.txs != [] {
        HeadKeeps(va);
        SettleNumbered(Committed(va, va.txs[0]), stored, c + 1);
      }
    case Credit(_) =>
  }

  lemma NextNumbered(va: Account, stored: uint32, c: nat, e: Event, va': Account, c': nat)
    requires Numbered(va, stored, c) && Inv(va) && |va.txs| <= TWO_32 && (e.Push? ==> Checked(e.tx.kind))
    requires va' == After(va, e) && c' == if Commits(va, e) then c + 1 else c
    ensures Numbered(va', stored, c')
  {
    EventNumbered(va, stored, c, e);
  }

  /** How many transactions the run commits. */
  function Committeds(amount: nat, nonce: uint32, es: seq<Event>): nat {
    if es == [] then 0
    else
      var n := |es| - 1;
      Committeds(amount, nonce, es[..n]) + if Commits(Ran(amount, nonce, es[..n]), es[n]) then 1 else 0
  }

  /** Over every run the transactions committed and pending carry the nonces behind the stored one, one after the other:
      with c committed so far, the pending one at i is stored + 1 + c + i. */
  lemma {:induction false} NoncesFromStored(amount: nat, nonce: uint32, es: seq<Event>)
    requires Small(amount, nonce, es)
    requires forall j :: 0 <= j < |es| && es[j].Push? ==> Checked(es[j].tx.kind)
    ensures Numbered(Ran(amount, nonce, es), nonce, Committeds(amount, nonce, es))
  {
    if es != [] {
      var before := es[..|es| - 1];
      SmallBefore(amount, nonce, es);
      NoncesFromStored(amount, nonce, before);
      PoolInvariant(amount, nonce, before);
      var va, c := Ran(amount, nonce, before), Committeds(amount, nonce, before);
      NextNumbered(va, nonce, c, es[|es| - 1], Ran(amount, nonce, es), Committeds(amount, nonce, es));
    } else {
      assert Nth(nonce, 1) == Inc32(Nth(nonce, 0));
    }
  }

  lemma SmallBefore(amount: nat, nonce: uint32, es: seq<Event>)
    requires Small(amount, nonce, es) && es != []
    ensures Small(amount, nonce, es[..|es| - 1]) && |Ran(amount, nonce, es[..|es| - 1]).txs| <= TWO_32
  {
    var before := es[..|es| - 1];
    forall n | 0 <= n <= |before| ensures |Ran(amount, nonce, before[..n]).txs| <= TWO_32 {
      assert before[..n] == es[..n];
    }
    assert before[..|before|] == before;
  }

  // ---- Money ----

  function Amounts(txs: seq<Tx>): int {
    if txs == [] then 0 else Amounts(txs[..|txs| - 1]) + txs[|txs| - 1].amount
  }

  /** The balance together with what is pending. */
  function Held(va: Account): int {
    va.amount + Amounts(va.txs)
  }

  lemma AddHolds(va: Account, tx: Tx)
    ensures Held(Added(va, tx)) == Held(va)
  {
    assert (va.txs + [tx])[..|va.txs|] == va.txs;
  }

  lemma {:induction false} AddAllHolds(va: Account, txs: seq<Tx>)
    ensures Held(AddedAll(va, txs)) == Held(va)
    decreases txs
  {
    if txs != [] {
      AddHolds(va, txs[0]);
      AddAllHolds(Added(va, txs[0]), txs[1..]);
    }
  }

  /** Pushing moves money from the balance to the pending transactions and creates none, whatever the type
      of the transaction. */
  lemma PushHolds(va: Account, tx: Tx)
    ensures Held(Pushed(va, tx)) == Held(va)
  {
    var d := Drained(va.orphans, va.nonce);
    AddAllHolds(va.(orphans := d.left), d.taken);
    AddHolds(Settled(va), tx);
  }

  // ---- What becomes of drained orphans ----

  /** How many of these transactions the balance covers, one after the other. */
  function Covered(amount: int, txs: seq<Tx>): (k: nat)
    ensures k <= |txs|
    decreases txs
  {
    if txs == [] || txs[0].amount > amount then 0 else 1 + Covered(amount - txs[0].amount, txs[1..])
  }

  function Behind(txs: seq<Tx>, k: nat): seq<Tx> {
    if k < |txs| then txs[k + 1..] else []
  }

  /** A transaction that is too early is inserted and nothing is dropped while there is room. */
  lemma InsertedOne(orphans: seq<Tx>, tx: Tx)
    requires |orphans| <= MAX_ORPHANS
    ensures multiset(Orphaned(orphans, tx)) == multiset(orphans) + multiset{tx} && |Orphaned(orphans, tx)| == |orphans| + 1
  {
    var p := Position(orphans, tx.nonce);
    assert orphans == orphans[..p] + orphans[p..];
    InsertedBetween(orphans[..p], tx, orphans[p..]);
  }

  lemma InsertedBetween(a: seq<Tx>, tx: Tx, b: seq<Tx>)
    ensures multiset(a + [tx] + b) == multiset(a + b) + multiset{tx}
  {
    assert multiset(a + [tx] + b) == multiset(a) + multiset{tx} + multiset(b);
    assert multiset(a + b) == multiset(a) + multiset(b);
  }

  lemma AllOf(tx: Tx, rest: seq<Tx>)
    ensures multiset([tx] + rest) == multiset{tx} + multiset(rest)
  {
  }

  lemma {:induction false} TooEarly(va: Account, txs: seq<Tx>)
    requires AllChecked(txs) && forall i :: 0 <= i < |txs| ==> txs[i].nonce > va.nonce
    requires |va.orphans| + |txs| <= MAX_ORPHANS + 1
    ensures var r := AddedAll(va, txs);
            r == va.(orphans := r.orphans) && multiset(r.orphans) == multiset(va.orphans) + multiset(txs)
    decreases txs
  {
    if txs != [] {
      var os, rest := Orphaned(va.orphans, txs[0]), txs[1..];
      InsertedOne(va.orphans, txs[0]);
      assert Added(va, txs[0]) == va.(orphans := os);
      TooEarly(va.(orphans := os), rest);
      assert txs == [txs[0]] + rest;
      AllOf(txs[0], rest);
    }
  }

  /** Of the transactions offered the first `k` became pending, the next one was dropped, and those behind it became
      orphans. */
  ghost predicate Split(va: Account, txs: seq<Tx>, k: nat, r: Account) {
    && k <= |txs| && va.nonce + k <= TWO_32
    && r.txs == va.txs + txs[..k] && r.nonce == (if va.nonce + k == TWO_32 then 0 else va.nonce + k)
    && multiset(r.orphans) == multiset(va.orphans) + multiset(Behind(txs, k))
  }

  /** The split is at the first transaction the balance does not cover. */
  ghost predicate SplitAtBalance(va: Account, txs: seq<Tx>, r: Account) {
    Split(va, txs, Covered(va.amount, txs), r)
  }

  lemma SplitStep(va: Account, tx: Tx, rest: seq<Tx>, k: nat, next: Account, r: Account)
    requires next.txs == va.txs + [tx] && next.nonce == Inc32(va.nonce) && next.orphans == va.orphans
    requires Split(next, rest, k, r) && va.nonce + 1 + k <= TWO_32
    ensures Split(va, [tx] + rest, k + 1, r)
  {
    var txs := [tx] + rest;
    assert va.txs + [tx] + rest[..k] == va.txs + txs[..k + 1];
    assert Behind(txs, k + 1) == Behind(rest, k);
  }

  lemma TakesOne(va: Account, tx: Tx)
    requires Checked(tx.kind) && tx.nonce == va.nonce && tx.amount <= va.amount
    ensures var next := Added(va, tx);
            && next.txs == va.txs + [tx] && next.nonce == Inc32(va.nonce)
            && next.orphans == va.orphans && next.amount == va.amount - tx.amount
  {
  }

  lemma DropsFirst(va: Account, tx: Tx, rest: seq<Tx>)
    requires Checked(tx.kind) && tx.nonce == va.nonce && tx.amount > va.amount
    requires AllChecked(rest) && (forall i :: 0 <= i < |rest| ==> rest[i].nonce > va.nonce)
    requires |va.orphans| + |rest| <= MAX_ORPHANS + 1
    ensures Added(va, tx) == va && Split(va, [tx] + rest, 0, AddedAll(va, rest))
  {
    TooEarly(va, rest);
    assert Behind([tx] + rest, 0) == rest;
  }

  lemma {:induction false} OfferedAgain(va: Account, txs: seq<Tx>)
    requires AllChecked(txs) && va.nonce + |txs| <= TWO_32 && |va.orphans| + |txs| <= MAX_ORPHANS + 1
    requires forall i :: 0 <= i < |txs| ==> txs[i].nonce == va.nonce + i
    ensures SplitAtBalance(va, txs, AddedAll(va, txs))
    decreases txs
  {
    if txs != [] {
      var tx, rest := txs[0], txs[1..];
      assert txs == [tx] + rest;
      if tx.amount <= va.amount {
        var next := Added(va, tx);
        TakesOne(va, tx);
        assert |rest| > 0 ==> next.nonce == va.nonce + 1;
        OfferedAgain(next, rest);
        SplitStep(va, tx, rest, Covered(next.amount, rest), next, AddedAll(next, rest));
      } else {
        DropsFirst(va, tx, rest);
      }
    }
  }

  /** A drain ends at the largest nonce: it does not go on from 0. */
  lemma {:induction false} DrainEnds(orphans: seq<Tx>, nonce: uint32)
    requires SortedByNonce(orphans)
    ensures nonce + |Drained(orphans, nonce).taken| <= TWO_32
    ensures |Drained(orphans, nonce).left| + |Drained(orphans, nonce).taken| <= |orphans|
  {
    if orphans != [] && orphans[0].nonce <= nonce {
      var rest := orphans[1..];
      if orphans[0].nonce < nonce {
        DrainEnds(rest, nonce);
      } else if nonce + 1 == TWO_32 {
        assert rest != [] ==> rest[0].nonce >= nonce;
        assert Drained(rest, 0) == Drain([], rest, 0);
      } else {
        DrainEnds(rest, nonce + 1);
      }
    }
  }

  /** What draining the orphans and offering them again does to any account with sorted orphans of the checked types, as
      many as addTransaction ever keeps. */
  lemma SettledSplits(va: Account)
    requires SortedByNonce(va.orphans) && AllChecked(va.orphans) && |va.orphans| <= MAX_ORPHANS + 1
    ensures var d := Drained(va.orphans, va.nonce);
            va.nonce + |d.taken| <= TWO_32 && SplitAtBalance(va.(orphans := d.left), d.taken, Settled(va))
  {
    var d := Drained(va.orphans, va.nonce);
    DrainEnds(va.orphans, va.nonce);
    DrainChecked(va.orphans, va.nonce);
    TakenInOrder(va.orphans, va.nonce);
    OfferedAgain(va.(orphans := d.left), d.taken);
  }

  lemma TakenInOrder(orphans: seq<Tx>, nonce: uint32)
    requires SortedByNonce(orphans)
    ensures var taken := Drained(orphans, nonce).taken; forall i :: 0 <= i < |taken| ==> taken[i].nonce == nonce + i
  {
    DrainEnds(orphans, nonce);
    DrainSpec(orphans, nonce);
    var taken := Drained(orphans, nonce).taken;
    forall i | 0 <= i < |taken| ensures taken[i].nonce == nonce + i {
      assert taken[i].nonce == Plus32(nonce, i) && 0 <= nonce + i < TWO_32;
    }
  }

  /** An orphan whose turn has come is lost when the balance does not cover it. */
  lemma OrphanLost()
    ensures var orphan := Tx("a", Atomic, 2, 10, "00", 0);
            var va := Settled(Account([orphan], [], {}, 5, 2));
            va.orphans == [] && va.txs == []
  {
    var orphan := Tx("a", Atomic, 2, 10, "00", 0);
    var va := Account([orphan], [], {}, 5, 2);
    assert Drained([], 3) == Drain([], [], 3);
    assert Drained([orphan], 2) == Drain([orphan], [], 3);
    assert Added(va.(orphans := []), orphan) == va.(orphans := []);
  }

  // ---- The account object ----

  /** With these taken, the rest of the orphans completes the drain. */
  ghost predicate DrainSoFar(d: Drain, txs: seq<Tx>, orphans: seq<Tx>, next: uint32) {
    var t := Drained(orphans, next);
    d == Drain(txs + t.taken, t.left, t.next)
  }

  lemma DrainStep(d: Drain, txs: seq<Tx>, orphans: seq<Tx>, next: uint32)
    requires DrainSoFar(d, txs, orphans, next) && orphans != [] && orphans[0].nonce <= next
    ensures if orphans[0].nonce == next then DrainSoFar(d, txs + [orphans[0]], orphans[1..], Inc32(next))
            else DrainSoFar(d, txs, orphans[1..], next)
  {
    if orphans[0].nonce == next {
      var t := Drained(orphans[1..], Inc32(next)).taken;
      assert txs + ([orphans[0]] + t) == txs + [orphans[0]] + t;
    }
  }

  class ValidatorAccount {
    var orphans: seq<Tx>
    var txsList: seq<Tx>
    var txsMap: set<Tx>
    var currTx: Option<Tx>
    var amount: int
    var nonce: uint32

    ghost function Abstract(): Account
      reads this
    {
      Account(orphans, txsList, txsMap, amount, nonce)
    }

    /** newValidatorAccount: the next nonce is the one behind the stored one. */
    constructor (balance: int, stored: uint32)
      ensures Abstract() == Opened(balance, stored) && currTx == None
      ensures orphans == [] && txsList == [] && amount == balance && nonce == (stored + 1) % TWO_32
    {
      orphans, txsList, txsMap, currTx := [], [], {}, None;
      amount, nonce := balance, Inc32(stored);
    }

    /** addTransaction: a transaction whose turn it is and which the balance covers becomes pending and moves the nonce on;
        an issue is taken whatever the balance, a merged or unknown one always. One that is too early becomes an orphan. */
    method AddTransaction(tx: Tx) returns (ok: bool)
      modifies this
      ensures Abstract() == Added(old(Abstract()), tx) && currTx == old(currTx)
      ensures ok <==> Acceptable(old(Abstract()), tx)
      ensures tx.kind.Merged? || tx.kind.Unknown? ==> ok
      ensures tx.kind.Issue? ==> (ok <==> tx.nonce == old(nonce))
      ensures !tx.kind.Merged? && !tx.kind.Unknown? && !tx.kind.Issue? ==>
                (ok <==> tx.nonce == old(nonce) && tx.amount <= old(amount))
      ensures ok ==> && txsList == old(txsList) + [tx] && txsMap == old(txsMap) + {tx} && orphans == old(orphans)
                     && amount == old(amount) - tx.amount
                     && nonce == if tx.kind.Merged? then old(nonce) else (old(nonce) + 1) % TWO_32
      ensures !ok ==> txsList == old(txsList) && txsMap == old(txsMap) && amount == old(amount) && nonce == old(nonce)
      ensures !ok ==> if tx.nonce > nonce then OrphanAdded(old(orphans), tx, orphans) else orphans == old(orphans)
    {
      var left := amount - tx.amount;
      ok := true;
      match tx.kind {
        case Merged =>
        case Issue => ok := nonce == tx.nonce;
        case Unknown(_) =>
        case _ => ok := nonce == tx.nonce && left >= 0;
      }
      if ok {
        txsList, txsMap, amount := txsList + [tx], txsMap + {tx}, left;
        if !tx.kind.Merged? { nonce := Inc32(nonce); }
        return;
      }
      if tx.nonce > nonce { AddOrphan(tx); }
    }

    /** The walk from the back of the orphan list. */
    method AddOrphan(tx: Tx)
      modifies `orphans
      ensures orphans == Orphaned(old(orphans), tx) && OrphanAdded(old(orphans), tx, orphans)
    {
      var os := if |orphans| > MAX_ORPHANS then orphans[1..] else orphans;
      var p := |os|;
      while p > 0 && tx.nonce <= os[p - 1].nonce
        invariant 0 <= p <= |os|
        invariant forall i :: p <= i < |os| ==> os[i].nonce >= tx.nonce
      {
        p := p - 1;
      }
      assert p == Position(os, tx.nonce);
      orphans := os[..p] + [tx] + os[p..];
      assert InsertedAt(os, p, tx, orphans);
    }

    /** processOrphan. */
    method ProcessOrphan() returns (txs: seq<Tx>)
      modifies `orphans
      ensures Drained(old(orphans), nonce) == Drain(txs, orphans, Plus32(nonce, |txs|))
    {
      var next := nonce;
      ghost var d := Drained(orphans, nonce);
      txs := [];
      while orphans != [] && orphans[0].nonce <= next
        invariant DrainSoFar(d, txs, orphans, next)
        invariant next == Plus32(nonce, |txs|)
        decreases orphans
      {
        DrainStep(d, txs, orphans, next);
        if orphans[0].nonce == next {
          NextOf(nonce + |txs|);
          txs, next := txs + [orphans[0]], Inc32(next);
        }
        orphans := orphans[1..];
      }
    }

    /** The orphans whose turn it is are offered again. */
    method Settle()
      modifies this
      ensures Abstract() == Settled(old(Abstract())) && currTx == old(currTx)
    {
      var txs := ProcessOrphan();
      ghost var start := Abstract();
      for i := 0 to |txs|
        invariant AddedAll(Abstract(), txs[i..]) == AddedAll(start, txs) && currTx == old(currTx)
      {
        assert txs[i..][1..] == txs[i + 1..];
        var _ := AddTransaction(txs[i]);
      }
    }

    method Push(tx: Tx) returns (ok: bool)
      modifies this
      ensures Abstract() == Pushed(old(Abstract()), tx) && currTx == old(currTx)
      ensures ok <==> Acceptable(Settled(old(Abstract())), tx)
    {
      Settle();
      ok := AddTransaction(tx);
    }

    /** committedAndRemoveTransaction; committing a pending transaction behind the head follows a link before the front of the
        list and crashes. */
    method Commit(tx: Tx) returns (crashed: bool)
      modifies this
      ensures crashed <==> old(tx in txsMap && (txsList == [] || txsList[0] != tx))
      ensures !crashed ==> Abstract() == Committed(old(Abstract()), tx) && currTx == old(currTx)
      ensures !crashed && tx in old(txsMap) ==>
                && txsList == old(txsList)[1..] && txsMap == old(txsMap) - {tx}
                && amount == old(amount) && nonce == old(nonce) && orphans == old(orphans)
      ensures tx !in old(txsMap) ==>
                && txsList == old(txsList) && txsMap == old(txsMap) && orphans == old(orphans)
                && amount == old(amount) - tx.amount
                && nonce == if tx.nonce >= old(nonce) then (tx.nonce + 1) % TWO_32 else old(nonce)
    {
      crashed := false;
      if tx in txsMap {
        if txsList == [] || txsList[0] != tx { return true; }
        txsList, txsMap := txsList[1..], txsMap - {tx};
      } else {
        amount := amount - tx.amount;
        if tx.nonce >= nonce { nonce := Inc32(tx.nonce); }
      }
    }
  }
}
