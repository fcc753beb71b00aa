/**
 * Transfers a contract asks for while it runs (vm/invoke.go, vm/callstack.go): balances are cached as
 * int64 under the spelling of the address, the transfers are queued, and committing replays them through
 * the account state.
 */
module Transfers {
  import opened Words
  import opened Sums
  import opened Queues
  import opened Balances

  const ADDRESS_LENGTH: int := 20

  type int64 = x: int | -TWO_63 <= x < TWO_63

  /** The low 64 bits, read as a signed number: Go's int64 addition and big.Int.Int64. */
  function Wrap(x: int): (r: int64)
    ensures -TWO_63 <= x < TWO_63 ==> r == x
  {
    var low := x % TWO_64;
    if low >= TWO_63 then low - TWO_64 else low
  }

  lemma WrapKeeps(x: int)
    ensures Wrap(x) == x <==> -TWO_63 <= x < TWO_63
  {
  }

  lemma WrapMoves(x: int64, amount: int64)
    requires amount > 0
    ensures Wrap(x + amount) != x
  {
    if x + amount >= TWO_63 { assert (x + amount) % TWO_64 == x + amount; }
  }

  // ---- Addresses ----

  predicate IsHex(c: char) {
    '0' <= c <= '9' || 'a' <= c <= 'f' || 'A' <= c <= 'F'
  }

  function Lower(c: char): char {
    if 'A' <= c <= 'F' then (c as int + 32) as char else c
  }

  function Stripped(addr: string): string {
    if |addr| >= 2 && addr[..2] == "0x" then addr[2..] else addr
  }

  function Lowered(s: string): (r: string)
    ensures |r| == |s| && forall i :: 0 <= i < |s| ==> r[i] == Lower(s[i])
  {
    seq(|s|, i requires 0 <= i < |s| => Lower(s[i]))
  }

  /** HexToAddress: the account a spelling denotes, written as its 40 lower-case digits. */
  function Account(addr: string): string {
    Lowered(Stripped(addr))
  }

  predicate CheckAddr(addr: string) {
    var hex := Stripped(addr);
    |hex| == 2 * ADDRESS_LENGTH && forall i :: 0 <= i < |hex| ==> IsHex(hex[i])
  }

  /** The spelling hex.EncodeToString gives a contract's own address. */
  predicate Canonical(addr: string) {
    CheckAddr(addr) && Account(addr) == addr
  }

  /** Every accepted spelling denotes an account that has a canonical spelling. */
  lemma AccountCanonical(addr: string)
    requires CheckAddr(addr)
    ensures Canonical(Account(addr))
  {
    var a := Account(addr);
    assert a[1] != 'x';
    assert Stripped(a) == a;
    assert Lowered(a) == a;
  }

  /** An address is 40 hexadecimal digits, behind "0x" or not. */
  lemma AddressForm(addr: string)
    ensures var hex := if |addr| >= 2 && addr[0] == '0' && addr[1] == 'x' then addr[2..] else addr;
            CheckAddr(addr) <==> |hex| == 40 && forall i :: 0 <= i < 40 ==>
              '0' <= hex[i] <= '9' || 'a' <= hex[i] <= 'f' || 'A' <= hex[i] <= 'F'
  {
    if |addr| >= 2 { assert addr[..2] == [addr[0], addr[1]]; }
  }

  /** The value of a hexadecimal digit. */
  function DigitValue(c: char): int
    requires IsHex(c)
  {
    if c <= '9' then c as int - '0' as int else if c <= 'F' then c as int - 'A' as int + 10 else c as int - 'a' as int + 10
  }

  /** Two spellings denote one account exactly when their digits have the same values, so upper and lower case and the
      prefix make no difference. */
  lemma SameAccount(a: string, b: string)
    requires CheckAddr(a) && CheckAddr(b)
    ensures Account(a) == Account(b) <==>
              forall i :: 0 <= i < 40 ==> DigitValue(Stripped(a)[i]) == DigitValue(Stripped(b)[i])
  {
    var x, y := Stripped(a), Stripped(b);
    forall i | 0 <= i < 40 ensures Lower(x[i]) == Lower(y[i]) <==> DigitValue(x[i]) == DigitValue(y[i]) {
      assert IsHex(x[i]) && IsHex(y[i]);
    }
    if forall i :: 0 <= i < 40 ==> DigitValue(x[i]) == DigitValue(y[i]) {
      assert Lowered(x) == Lowered(y);
    }
    if Account(a) == Account(b) {
      forall i | 0 <= i < 40 ensures DigitValue(x[i]) == DigitValue(y[i]) { assert Lowered(x)[i] == Lowered(y)[i]; }
    }
  }

  // ---- One transfer ----

  datatype Op = Op(to: string, amount: int64)

  datatype Vm = Vm(contract: string, cache: map<string, int64>, queue: seq<Op>)

  /** The balance under a spelling: from the cache, or the node's answer cut to 64 bits. */
  function Cached(m: Accounts, vm: Vm, addr: string): int64 {
    if addr in vm.cache then vm.cache[addr] else Wrap(At(m, Account(addr)).amount)
  }

  /** CCallTransfer; None is an error and changes nothing. */
  function Sent(m: Accounts, vm: Vm, op: Op, broken: set<string>): Option<Vm> {
    if !CheckAddr(op.to) || op.amount <= 0 then None
    else if vm.contract !in vm.cache && vm.contract in broken then None
    else if Cached(m, vm, vm.contract) < op.amount then None
    else if op.to !in vm.cache && op.to in broken then None
    else
      var cache := vm.cache[vm.contract := Wrap(Cached(m, vm, vm.contract) - op.amount)];
      Some(Vm(vm.contract, cache[op.to := Wrap(Cached(m, vm, op.to) + op.amount)], vm.queue + [op]))
  }

  /** The same transfer in the account state. */
  function AsCall(contract: string, op: Op, fee: int, nonce: uint32): Call {
    Transfer(contract, Account(op.to), fee, op.amount, nonce, false)
  }

  /** The cache agrees with the accounts n on a group of accounts. */
  ghost predicate Agrees(m: Accounts, vm: Vm, n: Accounts, group: set<string>) {
    forall a {:trigger Cached(m, vm, a)} | a in group :: Cached(m, vm, a) == At(n, a).amount
  }

  /** A queued transfer keeps the cache in step with the accounts of a group that holds both parties, exactly when the
      recipient is another account, spelled canonically, and its balance stays in 64 bits. */
  lemma SendExact(m: Accounts, vm: Vm, n: Accounts, op: Op, broken: set<string>, nonce: uint32, group: set<string>)
    requires Canonical(vm.contract) && Agrees(m, vm, n, group) && Sent(m, vm, op, broken).Some?
    requires vm.contract in group && Account(op.to) in group && forall a <- group :: Canonical(a)
    requires At(n, vm.contract).amount >= 0 && At(n, Account(op.to)).amount >= 0
    ensures var next := Direct(n, AsCall(vm.contract, op, 0, nonce));
            && next.Some?
            && (Agrees(m, Sent(m, vm, op, broken).value, next.value, group)
                <==> Canonical(op.to) && op.to != vm.contract && At(n, op.to).amount + op.amount < TWO_63)
  {
    var to := Account(op.to);
    assert Cached(m, vm, vm.contract) == At(n, vm.contract).amount;
    assert Cached(m, vm, to) == At(n, to).amount;
    if Canonical(op.to) && op.to != vm.contract && At(n, op.to).amount + op.amount < TWO_63 {
      SendKeeps(m, vm, n, op, broken, nonce, group);
    } else {
      SendBreaks(m, vm, n, op, broken, nonce);
    }
  }

  lemma SendKeeps(m: Accounts, vm: Vm, n: Accounts, op: Op, broken: set<string>, nonce: uint32, group: set<string>)
    requires Canonical(vm.contract) && Agrees(m, vm, n, group) && Sent(m, vm, op, broken).Some?
    requires vm.contract in group && op.to in group && Canonical(op.to) && op.to != vm.contract
    requires At(n, vm.contract).amount >= 0 && 0 <= At(n, op.to).amount < TWO_63 - op.amount
    ensures var next := Direct(n, AsCall(vm.contract, op, 0, nonce));
            next.Some? && Agrees(m, Sent(m, vm, op, broken).value, next.value, group)
  {
    assert Cached(m, vm, vm.contract) == At(n, vm.contract).amount;
    var vm', n' := Sent(m, vm, op, broken).value, Direct(n, AsCall(vm.contract, op, 0, nonce)).value;
    forall a | a in group ensures Cached(m, vm', a) == At(n', a).amount {
      assert Cached(m, vm, a) == At(n, a).amount;
    }
  }

  /** Where the cache is wrong afterwards: at the account of the recipient. */
  lemma SendBreaks(m: Accounts, vm: Vm, n: Accounts, op: Op, broken: set<string>, nonce: uint32)
    requires Canonical(vm.contract) && Sent(m, vm, op, broken).Some?
    requires Cached(m, vm, vm.contract) == At(n, vm.contract).amount
    requires Cached(m, vm, Account(op.to)) == At(n, Account(op.to)).amount >= 0
    requires !(Canonical(op.to) && op.to != vm.contract && At(n, op.to).amount + op.amount < TWO_63)
    requires Direct(n, AsCall(vm.contract, op, 0, nonce)).Some?
    ensures var to := Account(op.to);
            Cached(m, Sent(m, vm, op, broken).value, to) != At(Direct(n, AsCall(vm.contract, op, 0, nonce)).value, to).amount
  {
    var to := Account(op.to);
    AccountCanonical(op.to);
    if op.to == to {
      WrapKeeps(Cached(m, vm, op.to) + op.amount);
      WrapMoves(Cached(m, vm, op.to), op.amount);
    }
  }

  // ---- Runs ----

  datatype Ask = Ask(op: Op, broken: set<string>)

  function Ran(m: Accounts, contract: string, asks: seq<Ask>): (vm: Vm)
    ensures vm.contract == contract
  {
    if asks == [] then Vm(contract, map[], [])
    else
      Asked(m, Ran(m, contract, asks[..|asks| - 1]), asks[|asks| - 1])
  }

  /** A request that is refused changes nothing. */
  function Asked(m: Accounts, vm: Vm, k: Ask): (vm': Vm)
    ensures vm'.contract == vm.contract
  {
    var next := Sent(m, vm, k.op, k.broken);
    if next.Some? then next.value else vm
  }

  /** The queued transfers applied to the accounts, oldest first; None when one is refused. */
  function Replay(m: Accounts, contract: string, ops: seq<Op>, fee: int, nonce: uint32): Option<Accounts> {
    if ops == [] then Some(m)
    else
      var n := Replay(m, contract, ops[..|ops| - 1], fee, nonce);
      if n.None? then None else Direct(n.value, AsCall(contract, ops[|ops| - 1], fee, nonce))
  }

  lemma ReplayNext(m: Accounts, contract: string, ops: seq<Op>, op: Op, fee: int, nonce: uint32)
    ensures var n := Replay(m, contract, ops, fee, nonce);
            Replay(m, contract, ops + [op], fee, nonce)
            == if n.None? then None else Direct(n.value, AsCall(contract, op, fee, nonce))
  {
    assert (ops + [op])[..|ops|] == ops;
  }

  lemma RanNext(m: Accounts, contract: string, asks: seq<Ask>, i: nat)
    requires i < |asks|
    ensures Ran(m, contract, asks[..i + 1]) == Asked(m, Ran(m, contract, asks[..i]), asks[i])
  {
    assert asks[..i + 1][..i] == asks[..i] && asks[..i + 1][i] == asks[i];
  }

  // ---- What was queued can be executed ----

  /** The accounts cover what the cache lets the contract spend, and nobody is overdrawn. */
  ghost predicate Covers(m: Accounts, vm: Vm, n: Accounts) {
    Cached(m, vm, vm.contract) <= At(n, vm.contract).amount && NonNegative(n)
  }

  /** An accepted transfer can be executed, and leaves the accounts covering the cache unless the contract pays itself,
      under its own spelling, more than they hold beyond the cache. */
  lemma CoverExact(m: Accounts, vm: Vm, n: Accounts, op: Op, broken: set<string>, nonce: uint32)
    requires Account(vm.contract) == vm.contract && Covers(m, vm, n) && Sent(m, vm, op, broken).Some?
    ensures var next := Direct(n, AsCall(vm.contract, op, 0, nonce));
            && next.Some?
            && (Covers(m, Sent(m, vm, op, broken).value, next.value)
                <==> (op.to == vm.contract ==> Wrap(Cached(m, vm, vm.contract) + op.amount) <= At(n, vm.contract).amount))
  {
    DirectNonNegative(n, AsCall(vm.contract, op, 0, nonce));
  }

  /** The VM and, beside it, the accounts after its queue; None when a queued transfer was refused. */
  datatype Both = Both(vm: Vm, n: Option<Accounts>)

  function BothAsked(m: Accounts, s: Both, k: Ask, nonce: uint32): Both {
    var next := Sent(m, s.vm, k.op, k.broken);
    if next.None? then s
    else Both(next.value, if s.n.None? then None else Direct(s.n.value, AsCall(s.vm.contract, k.op, 0, nonce)))
  }

  function BothRan(m: Accounts, contract: string, asks: seq<Ask>, nonce: uint32): (s: Both)
    ensures s.vm == Ran(m, contract, asks)
  {
    if asks == [] then Both(Vm(contract, map[], []), Some(m))
    else BothAsked(m, BothRan(m, contract, asks[..|asks| - 1], nonce), asks[|asks| - 1], nonce)
  }

  /** Carrying the accounts along is replaying the queue. */
  lemma {:induction false} BothReplays(m: Accounts, contract: string, asks: seq<Ask>, nonce: uint32)
    ensures BothRan(m, contract, asks, nonce).n == Replay(m, contract, Ran(m, contract, asks).queue, 0, nonce)
  {
    if asks != [] {
      var before, k := asks[..|asks| - 1], asks[|asks| - 1];
      BothReplays(m, contract, before, nonce);
      ReplayNext(m, contract, Ran(m, contract, before).queue, k.op, 0, nonce);
    }
  }

  /** The queue can be replayed, and then the accounts cover the cache. */
  ghost predicate Covered(m: Accounts, s: Both) {
    s.n.Some? && Covers(m, s.vm, s.n.value)
  }

  /** Not an accepted payment of the contract to itself that exceeds what the accounts hold. */
  ghost predicate Safe(m: Accounts, s: Both, k: Ask) {
    s.n.Some? && Sent(m, s.vm, k.op, k.broken).Some? && k.op.to == s.vm.contract ==>
      Wrap(Cached(m, s.vm, s.vm.contract) + k.op.amount) <= At(s.n.value, s.vm.contract).amount
  }

  lemma CoverStep(m: Accounts, s: Both, k: Ask, nonce: uint32)
    requires Account(s.vm.contract) == s.vm.contract && Covered(m, s)
    ensures Covered(m, BothAsked(m, s, k, nonce)) <==> Safe(m, s, k)
  {
    if Sent(m, s.vm, k.op, k.broken).Some? {
      CoverExact(m, s.vm, s.n.value, k.op, k.broken, nonce);
    }
  }

  lemma BothNext(m: Accounts, contract: string, asks: seq<Ask>, nonce: uint32, i: nat)
    requires i < |asks|
    ensures BothRan(m, contract, asks[..i + 1], nonce) == BothAsked(m, BothRan(m, contract, asks[..i], nonce), asks[i], nonce)
  {
    assert asks[..i + 1][..i] == asks[..i] && asks[..i + 1][i] == asks[i];
  }

  ghost predicate CoveredAt(m: Accounts, contract: string, asks: seq<Ask>, nonce: uint32, i: nat)
    requires i <= |asks|
  {
    Covered(m, BothRan(m, contract, asks[..i], nonce))
  }

  ghost predicate SafeAt(m: Accounts, contract: string, asks: seq<Ask>, nonce: uint32, i: nat)
    requires i < |asks|
  {
    Safe(m, BothRan(m, contract, asks[..i], nonce), asks[i])
  }

  lemma CoveredNext(m: Accounts, contract: string, asks: seq<Ask>, nonce: uint32, i: nat)
    requires Account(contract) == contract && i < |asks| && CoveredAt(m, contract, asks, nonce, i)
    ensures CoveredAt(m, contract, asks, nonce, i + 1) <==> SafeAt(m, contract, asks, nonce, i)
  {
    BothNext(m, contract, asks, nonce, i);
    CoverStep(m, BothRan(m, contract, asks[..i], nonce), asks[i], nonce);
  }

  lemma WrapBelow(x: nat)
    ensures Wrap(x) <= x
  {
  }

  lemma {:induction false} CoveredUpTo(m: Accounts, contract: string, asks: seq<Ask>, nonce: uint32, i: nat)
    requires Account(contract) == contract && NonNegative(m) && i <= |asks|
    requires forall j | 0 <= j < i :: SafeAt(m, contract, asks, nonce, j)
    ensures CoveredAt(m, contract, asks, nonce, i)
  {
    if i == 0 {
      WrapBelow(At(m, contract).amount);
    } else {
      CoveredUpTo(m, contract, asks, nonce, i - 1);
      CoveredNext(m, contract, asks, nonce, i - 1);
    }
  }

  /** Whatever a contract asks for, under any spellings and with any balances: after every request what was queued can be
      executed, nobody is overdrawn and the contract cannot spend more than it has, if and only if the contract never
      pays itself more than the accounts hold. */
  lemma ExecutableExact(m: Accounts, contract: string, asks: seq<Ask>, nonce: uint32)
    requires Account(contract) == contract && NonNegative(m)
    ensures (forall i | 0 <= i <= |asks| :: CoveredAt(m, contract, asks, nonce, i))
       <==> (forall i | 0 <= i < |asks| :: SafeAt(m, contract, asks, nonce, i))
  {
    if forall i | 0 <= i < |asks| :: SafeAt(m, contract, asks, nonce, i) {
      forall i | 0 <= i <= |asks| ensures CoveredAt(m, contract, asks, nonce, i) {
        CoveredUpTo(m, contract, asks, nonce, i);
      }
    }
    if forall i | 0 <= i <= |asks| :: CoveredAt(m, contract, asks, nonce, i) {
      forall i | 0 <= i < |asks| ensures SafeAt(m, contract, asks, nonce, i) {
        assert CoveredAt(m, contract, asks, nonce, i) && CoveredAt(m, contract, asks, nonce, i + 1);
        CoveredNext(m, contract, asks, nonce, i);
      }
    }
  }

  /** A contract that never names itself as the recipient: the replay never fails and overdraws nobody. */
  lemma Executable(m: Accounts, contract: string, asks: seq<Ask>, nonce: uint32)
    requires Account(contract) == contract && NonNegative(m) && forall k <- asks :: k.op.to != contract
    ensures var vm := Ran(m, contract, asks);
            var n := Replay(m, contract, vm.queue, 0, nonce);
            n.Some? && NonNegative(n.value) && Cached(m, vm, contract) <= At(n.value, contract).amount
  {
    forall i | 0 <= i < |asks| ensures SafeAt(m, contract, asks, nonce, i) {
      assert asks[i] in asks;
    }
    CoveredUpTo(m, contract, asks, nonce, |asks|);
    assert asks[..|asks|] == asks;
    BothReplays(m, contract, asks, nonce);
  }

  function Digits(c: char): string { seq(2 * ADDRESS_LENGTH, i => c) }

  /** A contract with a balance of 10 pays itself 10 and another account 20: both are accepted, and the replay fails. */
  lemma SelfPaymentFails() returns (m: Accounts, contract: string, other: string)
    ensures Canonical(contract) && Canonical(other) && m == map[contract := Balance(10, 0)]
    ensures var asks := [Ask(Op(contract, 10), {}), Ask(Op(other, 20), {})];
            && Ran(m, contract, asks).queue == [asks[0].op, asks[1].op]
            && Replay(m, contract, Ran(m, contract, asks).queue, 0, 1) == None
  {
    contract, other := Digits('0'), Digits('1');
    assert contract[1] == '0' && other[1] == '1' && contract[0] != other[0];
    assert Lowered(contract) == contract && Lowered(other) == other;
    m := map[contract := Balance(10, 0)];
    BothAccepted(m, contract, other);
    ReplayRefused(m, contract, other);
  }

  lemma BothAccepted(m: Accounts, contract: string, other: string)
    requires Canonical(contract) && Canonical(other) && contract != other && m == map[contract := Balance(10, 0)]
    ensures Ran(m, contract, [Ask(Op(contract, 10), {}), Ask(Op(other, 20), {})]).queue == [Op(contract, 10), Op(other, 20)]
  {
    var asks := [Ask(Op(contract, 10), {}), Ask(Op(other, 20), {})];
    var none := Vm(contract, map[], []);
    var one := Vm(contract, map[contract := 20], [Op(contract, 10)]);
    assert Cached(m, none, contract) == 10;
    assert none.cache[contract := 0][contract := 20] == one.cache;
    assert none.queue + [asks[0].op] == one.queue;
    assert Sent(m, none, asks[0].op, {}) == Some(one);
    RanNext(m, contract, asks, 0);
    assert asks[..0] == [] && Ran(m, contract, asks[..1]) == one;
    RanNext(m, contract, asks, 1);
    assert asks[..2] == asks;
    assert Sent(m, one, asks[1].op, {}).Some?;
  }

  lemma ReplayRefused(m: Accounts, contract: string, other: string)
    requires Canonical(contract) && Canonical(other) && contract != other && m == map[contract := Balance(10, 0)]
    ensures Replay(m, contract, [Op(contract, 10), Op(other, 20)], 0, 1) == None
  {
    var first, second := Op(contract, 10), Op(other, 20);
    ReplayNext(m, contract, [], first, 0, 1);
    ReplayNext(m, contract, [first], second, 0, 1);
    assert [] + [first] == [first] && [first] + [second] == [first, second];
    assert Direct(m, AsCall(contract, first, 0, 1)).Some?;
    assert At(Direct(m, AsCall(contract, first, 0, 1)).value, contract).amount == 10;
  }

  // ---- The cache in step with the accounts ----

  /** What the contract could pay out keeps every recipient in the group within 64 bits. */
  ghost predicate Fits(m: Accounts, contract: string, group: set<string>) {
    && At(m, contract).amount < TWO_63
    && forall a <- group :: a != contract ==> At(m, contract).amount + At(m, a).amount < TWO_63
  }

  /** The accepted recipients are other accounts of the group, spelled canonically. */
  ghost predicate Ordinary(contract: string, asks: seq<Ask>, group: set<string>) {
    forall k <- asks :: CheckAddr(k.op.to) ==> Canonical(k.op.to) && k.op.to != contract && k.op.to in group
  }

  /** The accounts n were reached from m by paying out of the contract. */
  ghost predicate PaidFrom(m: Accounts, n: Accounts, contract: string, group: set<string>) {
    && NonNegative(n)
    && forall a <- group :: a != contract ==> At(n, contract).amount + At(n, a).amount <= At(m, contract).amount + At(m, a).amount
  }

  lemma PayStep(m: Accounts, n: Accounts, contract: string, op: Op, nonce: uint32, group: set<string>)
    requires PaidFrom(m, n, contract, group) && Account(op.to) != contract && op.amount > 0
    requires Direct(n, AsCall(contract, op, 0, nonce)).Some?
    ensures PaidFrom(m, Direct(n, AsCall(contract, op, 0, nonce)).value, contract, group)
  {
    var n' := Direct(n, AsCall(contract, op, 0, nonce)).value;
    DirectNonNegative(n, AsCall(contract, op, 0, nonce));
    forall a | a in group && a != contract
      ensures At(n', contract).amount + At(n', a).amount <= At(m, contract).amount + At(m, a).amount
    {
      assert At(n, contract).amount + At(n, a).amount <= At(m, contract).amount + At(m, a).amount;
    }
  }

  /** Ordinary requests with balances that cannot leave 64 bits: the replay ends at the cached balances. */
  lemma {:induction false} EndsAtCache(m: Accounts, contract: string, asks: seq<Ask>, nonce: uint32, group: set<string>)
    requires Canonical(contract) && NonNegative(m) && contract in group && forall a <- group :: Canonical(a)
    requires Fits(m, contract, group) && Ordinary(contract, asks, group)
    ensures var vm := Ran(m, contract, asks);
            var n := Replay(m, contract, vm.queue, 0, nonce);
            n.Some? && Agrees(m, vm, n.value, group) && PaidFrom(m, n.value, contract, group)
  {
    if asks == [] {
      AgreesAtStart(m, contract, group);
    } else {
      var before, k := asks[..|asks| - 1], asks[|asks| - 1];
      EndsAtCache(m, contract, before, nonce, group);
      var vm := Ran(m, contract, before);
      if Sent(m, vm, k.op, k.broken).Some? {
        EndStep(m, vm, Replay(m, contract, vm.queue, 0, nonce).value, k, nonce, group);
        ReplayNext(m, contract, vm.queue, k.op, 0, nonce);
      }
    }
  }

  lemma EndStep(m: Accounts, vm: Vm, n: Accounts, k: Ask, nonce: uint32, group: set<string>)
    requires Canonical(vm.contract) && vm.contract in group && forall a <- group :: Canonical(a)
    requires Agrees(m, vm, n, group) && PaidFrom(m, n, vm.contract, group) && Fits(m, vm.contract, group)
    requires Ordinary(vm.contract, [k], group) && Sent(m, vm, k.op, k.broken).Some?
    ensures var n' := Direct(n, AsCall(vm.contract, k.op, 0, nonce));
            n'.Some? && Agrees(m, Sent(m, vm, k.op, k.broken).value, n'.value, group) && PaidFrom(m, n'.value, vm.contract, group)
  {
    assert k in [k];
    assert At(n, vm.contract).amount + At(n, k.op.to).amount <= At(m, vm.contract).amount + At(m, k.op.to).amount;
    assert Cached(m, vm, vm.contract) == At(n, vm.contract).amount;
    SendExact(m, vm, n, k.op, k.broken, nonce, group);
    PayStep(m, n, vm.contract, k.op, nonce, group);
  }

  lemma AgreesAtStart(m: Accounts, contract: string, group: set<string>)
    requires Canonical(contract) && NonNegative(m) && Fits(m, contract, group) && forall a <- group :: Canonical(a)
    ensures Agrees(m, Vm(contract, map[], []), m, group)
  {
    var vm := Vm(contract, map[], []);
    forall a | a in group ensures Cached(m, vm, a) == At(m, a).amount {
      assert At(m, contract).amount + At(m, a).amount < TWO_63 || a == contract;
    }
  }

  // ---- Conservation ----

  lemma {:induction false} ReplayConserves(m: Accounts, contract: string, ops: seq<Op>, nonce: uint32, s: set<string>)
    requires Replay(m, contract, ops, 0, nonce).Some?
    requires contract in s && forall op <- ops :: Account(op.to) in s
    ensures Total(Replay(m, contract, ops, 0, nonce).value, s) == Total(m, s)
  {
    if ops != [] {
      var before := ops[..|ops| - 1];
      ReplayConserves(m, contract, before, nonce, s);
      DirectConserves(Replay(m, contract, before, 0, nonce).value, AsCall(contract, ops[|ops| - 1], 0, nonce), s);
    }
  }

  /** The cached balances of any group of accounts that holds everybody involved keep their sum, and the
      contract's is never negative. */
  lemma CacheConserves(m: Accounts, contract: string, asks: seq<Ask>, s: set<string>)
    requires Canonical(contract) && NonNegative(m) && contract in s && forall a <- s :: Canonical(a)
    requires Fits(m, contract, s) && Ordinary(contract, asks, s)
    ensures var vm := Ran(m, contract, asks);
            && Sum((a: string) => Cached(m, vm, a) as int, s) == Total(m, s)
            && Cached(m, vm, contract) >= 0
  {
    EndsAtCache(m, contract, asks, 0, s);
    QueuedInGroup(m, contract, asks, s);
    var vm := Ran(m, contract, asks);
    var n := Replay(m, contract, vm.queue, 0, 0).value;
    ReplayConserves(m, contract, vm.queue, 0, s);
    SumSame((a: string) => Cached(m, vm, a) as int, (a: string) => At(n, a).amount, s);
  }

  lemma {:induction false} QueuedInGroup(m: Accounts, contract: string, asks: seq<Ask>, s: set<string>)
    requires Ordinary(contract, asks, s)
    ensures forall op <- Ran(m, contract, asks).queue :: Account(op.to) in s
  {
    if asks != [] {
      QueuedInGroup(m, contract, asks[..|asks| - 1], s);
      assert asks[|asks| - 1] in asks;
    }
  }

  // ---- Fees ----

  /** The replayed transactions carry the fee of the transaction that ran the contract. With a fee the
      replay goes through exactly when what the cache leaves the contract covers one fee per transfer, and
      only the contract's balance is lower for it. */
  lemma {:induction false} ReplayWithFee(m: Accounts, contract: string, ops: seq<Op>, fee: nat, nonce: uint32)
    requires NonNegative(m) && Replay(m, contract, ops, 0, nonce).Some?
    requires forall op <- ops :: Account(op.to) != contract && op.amount > 0
    ensures NonNegative(Replay(m, contract, ops, 0, nonce).value)
    ensures FeeOutcome(Replay(m, contract, ops, 0, nonce).value, Replay(m, contract, ops, fee, nonce), contract, Fees(|ops|, fee))
  {
    if ops != [] {
      var before, op := ops[..|ops| - 1], ops[|ops| - 1];
      ReplayWithFee(m, contract, before, fee, nonce);
      var free, paid := Replay(m, contract, before, 0, nonce).value, Replay(m, contract, before, fee, nonce);
      DirectNonNegative(free, AsCall(contract, op, 0, nonce));
      FeeStep(free, paid, contract, op, Fees(|before|, fee), fee, nonce);
    }
  }

  function Fees(k: nat, fee: nat): (r: nat)
    ensures r == k * fee
  {
    if k == 0 then 0 else Fees(k - 1, fee) + fee
  }

  ghost predicate FeeOutcome(free: Accounts, paid: Option<Accounts>, contract: string, fees: nat) {
    && (paid.Some? <==> At(free, contract).amount >= fees)
    && (paid.Some? ==> FeeApart(free, paid.value, contract, fees))
  }

  ghost predicate FeeApart(free: Accounts, paid: Accounts, contract: string, fees: int) {
    forall a :: At(paid, a).amount == At(free, a).amount - if a == contract then fees else 0
  }

  lemma FeeStep(free: Accounts, paid: Option<Accounts>, contract: string, op: Op, fees: nat, fee: nat, nonce: uint32)
    requires NonNegative(free) && Account(op.to) != contract && op.amount > 0
    requires Direct(free, AsCall(contract, op, 0, nonce)).Some?
    requires FeeOutcome(free, paid, contract, fees)
    ensures FeeOutcome(Direct(free, AsCall(contract, op, 0, nonce)).value,
                       if paid.None? then None else Direct(paid.value, AsCall(contract, op, fee, nonce)),
                       contract, fees + fee)
  {
    if paid.Some? {
      var to, p := Account(op.to), paid.value;
      assert At(p, contract).amount == At(free, contract).amount - fees && At(p, to).amount == At(free, to).amount;
      var free' := Direct(free, AsCall(contract, op, 0, nonce)).value;
      var paid' := Direct(p, AsCall(contract, op, fee, nonce));
      if paid'.Some? {
        forall a ensures At(paid'.value, a).amount == At(free', a).amount - if a == contract then fees + fee else 0 {
          assert At(p, a).amount == At(free, a).amount - if a == contract then fees else 0;
        }
      }
    }
  }

  // ---- Through the account state ----

  /** The replay as the node runs it: one State.Transfer after the other over the cache of the accounts. */
  function StateReplay(db: Accounts, tmp: Accounts, contract: string, ops: seq<Op>, fee: int, nonce: uint32): Option<Accounts> {
    if ops == [] then Some(tmp)
    else
      var before := StateReplay(db, tmp, contract, ops[..|ops| - 1], fee, nonce);
      if before.None? then None
      else
        var o := Called(db, before.value, AsCall(contract, ops[|ops| - 1], fee, nonce), {});
        if o.puts.None? then None else Some(o.tmp)
  }

  lemma {:induction false} StateReplayRefines(db: Accounts, tmp: Accounts, m: Accounts, contract: string, ops: seq<Op>,
                                              fee: int, nonce: uint32)
    requires Sees(db, tmp, m)
    ensures var r, n := StateReplay(db, tmp, contract, ops, fee, nonce), Replay(m, contract, ops, fee, nonce);
            (r.Some? <==> n.Some?) && (r.Some? ==> Sees(db, r.value, n.value))
  {
    if ops != [] {
      var before := ops[..|ops| - 1];
      StateReplayRefines(db, tmp, m, contract, before, fee, nonce);
      var r, n := StateReplay(db, tmp, contract, before, fee, nonce), Replay(m, contract, before, fee, nonce);
      if r.Some? { CallRefines(db, r.value, n.value, AsCall(contract, ops[|ops| - 1], fee, nonce), {}); }
    }
  }

  // ---- The VM process ----

  class VmTransfers {
    const contractAddr: string
    var balancesMap: map<string, int64>
    const queue: Fifo<Op>

    constructor (contractAddr: string)
      ensures fresh(queue) && Abstract() == Vm(contractAddr, map[], [])
    {
      this.contractAddr, balancesMap := contractAddr, map[];
      queue := new Fifo();
    }

    ghost function Abstract(): Vm
      reads this, queue
    {
      Vm(contractAddr, balancesMap, queue.Contents())
    }

    /** The balance under a spelling: cache first, then the node, which fails for the addresses in `broken`. */
    method BalanceOf(addr: string, node: Accounts, broken: set<string>) returns (r: Option<int64>)
      ensures r.None? <==> addr !in balancesMap && addr in broken
      ensures r.Some? ==> r.value == Cached(node, Abstract(), addr)
    {
      if addr in balancesMap { return Some(balancesMap[addr]); }
      if addr in broken { return None; }
      r := Some(Wrap(At(node, Account(addr)).amount));
    }

    /** What the contract may ask: an error for anything that is no address. */
    method CCallGetBalances(addr: string, node: Accounts, broken: set<string>) returns (r: Option<int64>)
      ensures r.None? <==> !CheckAddr(addr) || (addr !in balancesMap && addr in broken)
      ensures r.Some? ==> r.value == Cached(node, Abstract(), addr)
    {
      if !CheckAddr(addr) { return None; }
      r := BalanceOf(addr, node, broken);
    }

    /** CCallTransfer: a positive amount the cached balance covers, to an address, with both balances to be had; the cache
        moves it and the transfer is queued. */
    method CCallTransfer(recipient: string, amount: int64, node: Accounts, broken: set<string>) returns (ok: bool)
      modifies `balancesMap, queue
      ensures ok <==> Sent(node, old(Abstract()), Op(recipient, amount), broken).Some?
      ensures Abstract() == if ok then Sent(node, old(Abstract()), Op(recipient, amount), broken).value else old(Abstract())
      ensures var mine := Cached(node, old(Abstract()), contractAddr);
              ok <==> && CheckAddr(recipient) && 0 < amount <= mine
                      && (contractAddr in old(balancesMap) || contractAddr !in broken)
                      && (recipient in old(balancesMap) || recipient !in broken)
      ensures ok ==> queue.Contents() == old(queue.Contents()) + [Op(recipient, amount)]
      ensures ok && recipient != contractAddr ==>
                && contractAddr in balancesMap && balancesMap[contractAddr] == Cached(node, old(Abstract()), contractAddr) - amount
                && recipient in balancesMap && balancesMap[recipient] == Wrap(Cached(node, old(Abstract()), recipient) + amount)
    {
      ok := false;
      if !CheckAddr(recipient) || amount <= 0 { return; }
      var mine := BalanceOf(contractAddr, node, broken);
      if mine.None? || mine.value < amount { return; }
      var theirs := BalanceOf(recipient, node, broken);
      if theirs.None? { return; }
      balancesMap := balancesMap[contractAddr := Wrap(mine.value - amount)];
      balancesMap := balancesMap[recipient := Wrap(theirs.value + amount)];
      queue.Offer(Op(recipient, amount));
      ok := true;
    }

    /** The transfer half of CCallCommit: the queue is drained, oldest first, into the transactions of the
        contract (AddTransfer), which carry the fee and nonce of the current one. The request with number `failAt`, if there
        are so many, fails: it is lost and the rest stays queued. */
    method CCallCommit(fee: int, nonce: uint32, failAt: nat) returns (ok: bool, calls: seq<Call>)
      modifies queue
      ensures ok <==> failAt >= |old(queue.Contents())|
      ensures queue.Contents() == if ok then [] else old(queue.Contents())[failAt + 1..]
      ensures |calls| == if ok then |old(queue.Contents())| else failAt
      ensures forall i :: 0 <= i < |calls| ==> calls[i] == AsCall(contractAddr, old(queue.Contents())[i], fee, nonce)
      ensures forall i :: 0 <= i < |calls| ==> var op := old(queue.Contents())[i];
                calls[i] == Transfer(contractAddr, Account(op.to), fee, op.amount, nonce, false)
    {
      ghost var all := queue.Contents();
      ok, calls := false, [];
      var more := true;
      while more
        invariant |calls| <= |all| && |calls| <= failAt && queue.Contents() == all[|calls|..]
        invariant !more ==> |calls| == |all|
        invariant forall i :: 0 <= i < |calls| ==> calls[i] == AsCall(contractAddr, all[i], fee, nonce)
        decreases |all| - |calls|, more
      {
        assert |calls| < |all| ==> all[|calls|..][1..] == all[|calls| + 1..];
        var op := queue.Poll();
        if op.None? {
          more := false;
        } else if |calls| == failAt {
          return;
        } else {
          calls := calls + [AsCall(contractAddr, op.value, fee, nonce)];
        }
      }
      ok := true;
    }
  }
}
