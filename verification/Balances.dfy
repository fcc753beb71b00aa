/**
 * Account balances with their write-back cache (core/ledger/state/state.go).
 */
module Balances {
  import opened Words
  import opened Sums
  import Codec
  import Varint

  datatype Balance = Balance(amount: int, nonce: uint32)

  type Accounts = map<string, Balance>

  const PLUS: uint32 := 0
  const SUB: uint32 := 1

  /** An account nobody wrote is empty. */
  function At(m: Accounts, a: string): Balance {
    if a in m then m[a] else Balance(0, 0)
  }

  /** What a reader of the cache over the database sees. */
  function View(db: Accounts, tmp: Accounts, a: string): Balance {
    if a in tmp then tmp[a] else At(db, a)
  }

  // ---- What is stored ----

  const BALANCE_SCHEMA: Codec.Schema := Codec.Struct([Codec.BigInt, Codec.Uint(Codec.W32)])

  function AsValue(b: Balance): Codec.Value {
    Codec.Items([Codec.Big(b.amount), Codec.Num(b.nonce)])
  }

  /** The balance a reader gets back from serialize: the sign is lost. */
  function Stored(b: Balance): Balance {
    Balance(Codec.Abs(b.amount), b.nonce)
  }

  lemma DecodePair(a: Codec.Schema, b: Codec.Schema, data: Varint.Bytes)
    ensures var x := Codec.Decode(a, data);
            var y := Codec.Decode(b, x.rest);
            Codec.DecodeFields([a, b], data) == Codec.DecodedSeq([x.value, y.value], false, y.rest)
  {
    assert [a, b][1..] == [b] && [b][1..] == [];
    var x := Codec.Decode(a, data);
    assert Codec.DecodeFields([b], x.rest) == Codec.DecodedSeq([Codec.Decode(b, x.rest).value], false, Codec.Decode(b, x.rest).rest);
  }

  lemma EncodePair(a: Codec.Schema, b: Codec.Schema, v: Codec.Value, w: Codec.Value)
    requires Codec.HasType(a, v) && Codec.HasType(b, w)
    ensures Codec.FieldsHaveType([a, b], [v, w])
    ensures Codec.EncodeFields([a, b], [v, w]) == Codec.Encode(a, v) + Codec.Encode(b, w)
  {
    assert [a, b][1..] == [b] && [b][1..] == [] && [v, w][1..] == [w] && [w][1..] == [];
    assert Codec.FieldsHaveType([b], [w]);
    assert Codec.EncodeFields([b], [w]) == Codec.Encode(b, w);
  }

  lemma StoredIsDecoded(b: Balance)
    requires |Codec.Magnitude(Codec.Abs(b.amount))| < TWO_63
    ensures Codec.HasType(BALANCE_SCHEMA, AsValue(b))
    ensures Codec.Decode(BALANCE_SCHEMA, Codec.Encode(BALANCE_SCHEMA, AsValue(b)))
         == Codec.Decoded(AsValue(Stored(b)), false, [])
    ensures Stored(b) == b <==> b.amount >= 0
  {
    var amount, nonce := Codec.Big(b.amount), Codec.Num(b.nonce);
    var word := Codec.Uint(Codec.W32);
    EncodePair(Codec.BigInt, word, amount, nonce);
    Codec.BigRoundTrip(amount, Codec.Encode(word, nonce));
    Codec.NumberRoundTrip(word, nonce, []);
    assert Codec.Encode(word, nonce) + [] == Codec.Encode(word, nonce);
    DecodePair(Codec.BigInt, word, Codec.Encode(Codec.BigInt, amount) + Codec.Encode(word, nonce));
  }

  datatype Put = Put(addr: string, balance: Balance)

  /** db.AtomicWrite of the emitted batches, in order. */
  function Written(db: Accounts, puts: seq<Put>): Accounts {
    if puts == [] then db
    else var last := puts[|puts| - 1]; Written(db, puts[..|puts| - 1])[last.addr := last.balance]
  }

  // ---- One call ----

  datatype Call =
    | Update(addr: string, amount: int, nonce: uint32, fee: int, operation: uint32)
    | Transfer(sender: string, recipient: string, fee: int, amount: int, nonce: uint32, issue: bool)

  /** The cache after a call and the batches it returned; None is an error. */
  datatype Outcome = Outcome(tmp: Accounts, puts: Option<seq<Put>>)

  /** GetTmpBalance: reading an account caches it; the database fails for the addresses in `broken`. */
  function Fetched(db: Accounts, tmp: Accounts, a: string, broken: set<string>): (r: Option<Accounts>)
    ensures r.Some? ==> a in r.value
    ensures r.None? <==> a !in tmp && a in broken
  {
    if a in tmp then Some(tmp) else if a in broken then None else Some(tmp[a := At(db, a)])
  }

  function Updated(db: Accounts, tmp: Accounts, c: Call, broken: set<string>): Outcome
    requires c.Update?
  {
    var read := Fetched(db, tmp, c.addr, broken);
    if read.None? then Outcome(tmp, None)
    else
      var b := read.value[c.addr];
      var b' := if c.operation == PLUS then Balance(b.amount + c.amount, b.nonce)
                else Balance(b.amount - c.fee - c.amount, c.nonce);
      if c.operation > SUB || b'.amount < 0 then Outcome(read.value, None)
      else Outcome(read.value[c.addr := b'], Some([Put(c.addr, Stored(b'))]))
  }

  function Transferred(db: Accounts, tmp: Accounts, c: Call, broken: set<string>): Outcome
    requires c.Transfer?
  {
    var read := Fetched(db, tmp, c.sender, broken);
    if read.None? then Outcome(tmp, None)
    else
      var s := read.value[c.sender];
      var self := c.sender == c.recipient;
      var s' := Balance(s.amount - c.fee - (if self then 0 else c.amount), c.nonce);
      if s'.amount < 0 && !c.issue then Outcome(read.value, None)
      else
        var debited := read.value[c.sender := s'];
        if self then Outcome(debited, Some([Put(c.sender, Stored(s'))]))
        else Credited(db, debited, c, broken)
  }

  /** The second half of a transfer, with the sender already debited. */
  function Credited(db: Accounts, debited: Accounts, c: Call, broken: set<string>): Outcome
    requires c.Transfer? && c.sender in debited
  {
    var read := Fetched(db, debited, c.recipient, broken);
    if read.None? then Outcome(debited, None)
    else
      var r := read.value[c.recipient];
      var r' := Balance(r.amount + c.amount, r.nonce);
      if r'.amount < 0 && !c.issue then Outcome(read.value, None)
      else Outcome(read.value[c.recipient := r'],
                   Some([Put(c.sender, Stored(debited[c.sender])), Put(c.recipient, Stored(r'))]))
  }

  function Called(db: Accounts, tmp: Accounts, c: Call, broken: set<string>): Outcome {
    if c.Update? then Updated(db, tmp, c, broken) else Transferred(db, tmp, c, broken)
  }

  // ---- The reference: every operation applied directly to one table ----

  /** The table after the operation; None when the operation must be refused. */
  function Direct(m: Accounts, c: Call): Option<Accounts> {
    match c
    case Update(a, amount, nonce, fee, operation) =>
      if operation == PLUS then
        if At(m, a).amount + amount >= 0 then Some(m[a := At(m, a).(amount := At(m, a).amount + amount)]) else None
      else if operation == SUB then
        if At(m, a).amount >= fee + amount then Some(m[a := Balance(At(m, a).amount - fee - amount, nonce)]) else None
      else None
    case Transfer(sender, recipient, fee, amount, nonce, issue) =>
      var spent := if sender == recipient then fee else fee + amount;
      if At(m, sender).amount < spent && !issue then None
      else
        var m' := m[sender := Balance(At(m, sender).amount - spent, nonce)];
        if sender == recipient then Some(m')
        else if At(m, recipient).amount + amount < 0 && !issue then None
        else Some(m'[recipient := At(m, recipient).(amount := At(m, recipient).amount + amount)])
  }

  ghost predicate Sees(db: Accounts, tmp: Accounts, m: Accounts) {
    forall a :: View(db, tmp, a) == At(m, a)
  }

  /** Reads of the database that the call makes and that fail. */
  predicate ReadFails(tmp: Accounts, c: Call, broken: set<string>) {
    match c
    case Update(a, _, _, _, _) => a !in tmp && a in broken
    case Transfer(sender, recipient, _, _, _, _) =>
      (sender !in tmp && sender in broken) || (recipient !in tmp && recipient in broken)
  }

  lemma SeesPut(db: Accounts, tmp: Accounts, m: Accounts, a: string, b: Balance)
    requires Sees(db, tmp, m)
    ensures Sees(db, tmp[a := b], m[a := b])
  {
    var tmp', m' := tmp[a := b], m[a := b];
    forall x ensures View(db, tmp', x) == At(m', x) {
      assert View(db, tmp, x) == At(m, x);
    }
  }

  lemma SeesOld(db: Accounts, tmp: Accounts, m: Accounts, a: string, b: Balance)
    requires Sees(db, tmp, m[a := b])
    ensures Sees(db, tmp, m) <==> b == At(m, a)
  {
    var m' := m[a := b];
    assert View(db, tmp, a) == At(m', a);
    if b == At(m, a) {
      forall x ensures View(db, tmp, x) == At(m, x) { assert View(db, tmp, x) == At(m', x); }
    }
  }

  /** Caching changes nothing that is seen. */
  lemma FetchSees(db: Accounts, tmp: Accounts, m: Accounts, a: string, broken: set<string>)
    requires Sees(db, tmp, m) && Fetched(db, tmp, a, broken).Some?
    ensures var read := Fetched(db, tmp, a, broken).value; Sees(db, read, m) && read[a] == At(m, a)
  {
    assert View(db, tmp, a) == At(m, a);
    var read := Fetched(db, tmp, a, broken).value;
    forall x ensures View(db, read, x) == At(m, x) {
      assert View(db, tmp, x) == At(m, x);
    }
  }

  lemma UpdateRefines(db: Accounts, tmp: Accounts, m: Accounts, c: Call, broken: set<string>)
    requires c.Update? && Sees(db, tmp, m) && !ReadFails(tmp, c, broken)
    ensures var o := Updated(db, tmp, c, broken);
            && (o.puts.Some? <==> Direct(m, c).Some?)
            && Sees(db, o.tmp, if o.puts.Some? then Direct(m, c).value else m)
  {
    FetchSees(db, tmp, m, c.addr, broken);
    var o := Updated(db, tmp, c, broken);
    SeesPut(db, Fetched(db, tmp, c.addr, broken).value, m, c.addr, View(db, o.tmp, c.addr));
  }

  lemma CreditRefines(db: Accounts, debited: Accounts, m: Accounts, c: Call, broken: set<string>)
    requires c.Transfer? && c.sender in debited && c.sender != c.recipient && Sees(db, debited, m)
    ensures var o := Credited(db, debited, c, broken);
            var r := At(m, c.recipient);
            && (o.puts.Some? <==> (c.recipient in debited || c.recipient !in broken) && (r.amount + c.amount >= 0 || c.issue))
            && Sees(db, o.tmp, if o.puts.Some? then m[c.recipient := r.(amount := r.amount + c.amount)] else m)
  {
    var r := At(m, c.recipient);
    if c.recipient in debited || c.recipient !in broken {
      FetchSees(db, debited, m, c.recipient, broken);
      SeesPut(db, Fetched(db, debited, c.recipient, broken).value, m, c.recipient, r.(amount := r.amount + c.amount));
    }
  }

  /** A failing call that already took the money: the sender passed, and then the recipient could not be
      read or would have become negative. */
  ghost predicate HalfDone(tmp: Accounts, m: Accounts, c: Call, broken: set<string>) {
    && c.Transfer? && c.sender != c.recipient && (c.sender in tmp || c.sender !in broken)
    && (At(m, c.sender).amount >= c.fee + c.amount || c.issue)
    && ((c.recipient !in tmp && c.recipient in broken) || (At(m, c.recipient).amount + c.amount < 0 && !c.issue))
    && Balance(At(m, c.sender).amount - c.fee - c.amount, c.nonce) != At(m, c.sender)
  }

  lemma SelfTransfer(db: Accounts, tmp: Accounts, m: Accounts, c: Call, broken: set<string>)
    requires c.Transfer? && Sees(db, tmp, m) && c.sender == c.recipient
    ensures var o := Transferred(db, tmp, c, broken);
            && (!ReadFails(tmp, c, broken) ==> (o.puts.Some? <==> Direct(m, c).Some?))
            && (o.puts.Some? ==> Direct(m, c).Some?)
            && Sees(db, o.tmp, if o.puts.Some? then Direct(m, c).value else m)
  {
    if c.sender in tmp || c.sender !in broken {
      FetchSees(db, tmp, m, c.sender, broken);
      SeesPut(db, Fetched(db, tmp, c.sender, broken).value, m, c.sender,
              Balance(At(m, c.sender).amount - c.fee, c.nonce));
    }
  }

  /** A transfer the sender can pay is its second half after the debit. */
  lemma TransferIsCredit(db: Accounts, tmp: Accounts, m: Accounts, c: Call, broken: set<string>) returns (debited: Accounts)
    requires c.Transfer? && Sees(db, tmp, m) && c.sender != c.recipient
    requires c.sender in tmp || c.sender !in broken
    requires At(m, c.sender).amount >= c.fee + c.amount || c.issue
    ensures debited.Keys == tmp.Keys + {c.sender}
    ensures Transferred(db, tmp, c, broken) == Credited(db, debited, c, broken)
    ensures Sees(db, debited, m[c.sender := Balance(At(m, c.sender).amount - c.fee - c.amount, c.nonce)])
  {
    FetchSees(db, tmp, m, c.sender, broken);
    var read := Fetched(db, tmp, c.sender, broken).value;
    var s' := Balance(At(m, c.sender).amount - c.fee - c.amount, c.nonce);
    SeesPut(db, read, m, c.sender, s');
    debited := read[c.sender := s'];
  }

  /** The direct transfer of a sender who can pay. */
  lemma DirectTransfer(m: Accounts, c: Call)
    requires c.Transfer? && c.sender != c.recipient && (At(m, c.sender).amount >= c.fee + c.amount || c.issue)
    ensures var r := At(m, c.recipient);
            var m' := m[c.sender := Balance(At(m, c.sender).amount - c.fee - c.amount, c.nonce)];
            && At(m', c.recipient) == r
            && Direct(m, c) == if r.amount + c.amount < 0 && !c.issue then None
                               else Some(m'[c.recipient := r.(amount := r.amount + c.amount)])
  {
  }

  lemma OtherSucceeds(db: Accounts, tmp: Accounts, m: Accounts, c: Call, broken: set<string>)
    requires c.Transfer? && Sees(db, tmp, m) && c.sender != c.recipient
    requires c.sender in tmp || c.sender !in broken
    requires At(m, c.sender).amount >= c.fee + c.amount || c.issue
    ensures var o := Transferred(db, tmp, c, broken);
            && (!ReadFails(tmp, c, broken) ==> (o.puts.Some? <==> Direct(m, c).Some?))
            && (o.puts.Some? ==> Direct(m, c).Some?)
            && var m' := m[c.sender := Balance(At(m, c.sender).amount - c.fee - c.amount, c.nonce)];
            && Sees(db, o.tmp, if o.puts.Some? then Direct(m, c).value else m')
            && (o.puts.None? <==> (c.recipient !in tmp && c.recipient in broken) || (At(m, c.recipient).amount + c.amount < 0 && !c.issue))
  {
    var debited := TransferIsCredit(db, tmp, m, c, broken);
    DirectTransfer(m, c);
    CreditRefines(db, debited, m[c.sender := Balance(At(m, c.sender).amount - c.fee - c.amount, c.nonce)], c, broken);
  }

  lemma OtherTransfer(db: Accounts, tmp: Accounts, m: Accounts, c: Call, broken: set<string>)
    requires c.Transfer? && Sees(db, tmp, m) && c.sender != c.recipient
    ensures var o := Transferred(db, tmp, c, broken);
            && (!ReadFails(tmp, c, broken) ==> (o.puts.Some? <==> Direct(m, c).Some?))
            && (o.puts.Some? ==> Direct(m, c).Some? && Sees(db, o.tmp, Direct(m, c).value))
            && (o.puts.None? ==> (Sees(db, o.tmp, m) <==> !HalfDone(tmp, m, c, broken)))
  {
    if c.sender in tmp || c.sender !in broken {
      if At(m, c.sender).amount >= c.fee + c.amount || c.issue {
        OtherSucceeds(db, tmp, m, c, broken);
        var o := Transferred(db, tmp, c, broken);
        if o.puts.None? {
          SeesOld(db, o.tmp, m, c.sender, Balance(At(m, c.sender).amount - c.fee - c.amount, c.nonce));
        }
      } else {
        FetchSees(db, tmp, m, c.sender, broken);
      }
    }
  }

  /** The cache refines direct application, for every call, amount and database failure: a call succeeds
      only if the direct operation is allowed, and when its reads work also if; a success shows the direct
      result; a failure shows no change at all unless the call is half done. */
  lemma CallRefines(db: Accounts, tmp: Accounts, m: Accounts, c: Call, broken: set<string>)
    requires Sees(db, tmp, m)
    ensures var o := Called(db, tmp, c, broken);
            && (!ReadFails(tmp, c, broken) ==> (o.puts.Some? <==> Direct(m, c).Some?))
            && (o.puts.Some? ==> Direct(m, c).Some? && Sees(db, o.tmp, Direct(m, c).value))
            && (o.puts.None? ==> (Sees(db, o.tmp, m) <==> !HalfDone(tmp, m, c, broken)))
  {
    if c.Transfer? {
      if c.sender == c.recipient { SelfTransfer(db, tmp, m, c, broken); } else { OtherTransfer(db, tmp, m, c, broken); }
    } else if !ReadFails(tmp, c, broken) {
      UpdateRefines(db, tmp, m, c, broken);
    }
  }

  /** What a successful call shows: an update changes one account and its nonce only when it takes, a transfer charges
      amount and fee to the sender under the new nonce and credits the amount; nobody else is touched. */
  lemma CallMoves(db: Accounts, tmp: Accounts, c: Call, broken: set<string>, x: string)
    requires Called(db, tmp, c, broken).puts.Some?
    ensures var b, b' := View(db, tmp, x), View(db, Called(db, tmp, c, broken).tmp, x);
            && (c.Update? ==>
                  && c.operation <= 1
                  && b' == if x != c.addr then b
                           else if c.operation == 0 then Balance(b.amount + c.amount, b.nonce)
                           else Balance(b.amount - c.fee - c.amount, c.nonce))
            && (c.Transfer? ==>
                  b' == if x == c.sender == c.recipient then Balance(b.amount - c.fee, c.nonce)
                        else if x == c.sender then Balance(b.amount - c.fee - c.amount, c.nonce)
                        else if x == c.recipient then Balance(b.amount + c.amount, b.nonce)
                        else b)
  {
  }

  // ---- Non-negative amounts ----

  predicate Benign(c: Call) {
    c.amount >= 0 && c.fee >= 0 && (c.Transfer? ==> !c.issue)
  }

  ghost predicate NonNegative(m: Accounts) {
    forall a <- m :: m[a].amount >= 0
  }

  lemma DirectNonNegative(m: Accounts, c: Call)
    requires NonNegative(m) && Benign(c) && Direct(m, c).Some?
    ensures NonNegative(Direct(m, c).value)
  {
  }

  /** What a successful call emits is what the direct operation writes. */
  lemma EmitsDirect(db: Accounts, tmp: Accounts, m: Accounts, c: Call, broken: set<string>)
    requires Sees(db, tmp, m) && NonNegative(m) && Benign(c)
    requires Called(db, tmp, c, broken).puts.Some? && Direct(m, c).Some?
    ensures Written(m, Called(db, tmp, c, broken).puts.value) == Direct(m, c).value
  {
    if c.Update? {
      FetchSees(db, tmp, m, c.addr, broken);
      WrittenOne(m, Called(db, tmp, c, broken).puts.value[0]);
    } else if c.sender == c.recipient {
      FetchSees(db, tmp, m, c.sender, broken);
      WrittenOne(m, Called(db, tmp, c, broken).puts.value[0]);
    } else {
      TransferEmits(db, tmp, m, c, broken);
    }
  }

  /** A transfer to somebody else emits both new balances. */
  lemma TransferEmits(db: Accounts, tmp: Accounts, m: Accounts, c: Call, broken: set<string>)
    requires Sees(db, tmp, m) && NonNegative(m) && Benign(c) && c.Transfer? && c.sender != c.recipient
    requires Transferred(db, tmp, c, broken).puts.Some? && Direct(m, c).Some?
    ensures Written(m, Transferred(db, tmp, c, broken).puts.value) == Direct(m, c).value
  {
    FetchSees(db, tmp, m, c.sender, broken);
    assert View(db, tmp, c.recipient) == At(m, c.recipient);
    var s, r := At(m, c.sender), At(m, c.recipient);
    var s', r' := Balance(s.amount - c.fee - c.amount, c.nonce), Balance(r.amount + c.amount, r.nonce);
    assert Transferred(db, tmp, c, broken).puts.value == [Put(c.sender, Stored(s')), Put(c.recipient, Stored(r'))];
    WrittenTwo(m, Put(c.sender, s'), Put(c.recipient, r'));
  }

  lemma WrittenOne(m: Accounts, p: Put)
    ensures Written(m, [p]) == m[p.addr := p.balance]
  {
    assert [p][..0] == [];
  }

  lemma WrittenTwo(m: Accounts, p: Put, q: Put)
    ensures Written(m, [p, q]) == m[p.addr := p.balance][q.addr := q.balance]
  {
    assert [p, q][..1] == [p];
    WrittenOne(m, p);
  }

  lemma {:induction false} WrittenAppend(m: Accounts, p: seq<Put>, q: seq<Put>)
    ensures Written(m, p + q) == Written(Written(m, p), q)
  {
    if q == [] {
      assert p + q == p;
    } else {
      WrittenAppend(m, p, q[..|q| - 1]);
      assert (p + q)[..|p + q| - 1] == p + q[..|q| - 1];
    }
  }

  // ---- Runs ----

  datatype Turn = Turn(call: Call, broken: set<string>)

  /** Cache, emitted batches and the calls that succeeded. */
  datatype Progress = Progress(tmp: Accounts, puts: seq<Put>, succeeded: seq<Call>)

  function Ran(db: Accounts, turns: seq<Turn>): Progress {
    if turns == [] then Progress(map[], [], [])
    else
      var p := Ran(db, turns[..|turns| - 1]);
      var t := turns[|turns| - 1];
      var o := Called(db, p.tmp, t.call, t.broken);
      if o.puts.None? then p.(tmp := o.tmp)
      else Progress(o.tmp, p.puts + o.puts.value, p.succeeded + [t.call])
  }

  /** The reference: the successful calls applied directly to the database. */
  function Applied(db: Accounts, calls: seq<Call>): Accounts {
    if calls == [] then db
    else
      var m := Applied(db, calls[..|calls| - 1]);
      var d := Direct(m, calls[|calls| - 1]);
      if d.Some? then d.value else m
  }

  /** No database read fails between the debit and the credit of a transfer. */
  ghost predicate Uninterrupted(db: Accounts, turns: seq<Turn>) {
    turns == [] ||
      var p := Ran(db, turns[..|turns| - 1]);
      var t := turns[|turns| - 1];
      && Uninterrupted(db, turns[..|turns| - 1])
      && (t.call.Transfer? && (t.call.sender in p.tmp || t.call.sender !in t.broken) ==> !ReadFails(p.tmp, t.call, t.broken))
  }

  /** After any run the cache shows the successful calls applied directly, the emitted batches turn the
      database into the same table, and no account is negative. */
  lemma {:induction false} CacheRefines(db: Accounts, turns: seq<Turn>)
    requires NonNegative(db) && Uninterrupted(db, turns) && forall t <- turns :: Benign(t.call)
    ensures var p := Ran(db, turns);
            var m := Applied(db, p.succeeded);
            Sees(db, p.tmp, m) && Written(db, p.puts) == m && NonNegative(m)
  {
    if turns != [] {
      var before := turns[..|turns| - 1];
      CacheRefines(db, before);
      var p, t := Ran(db, before), turns[|turns| - 1];
      var m := Applied(db, p.succeeded);
      CallRefines(db, p.tmp, m, t.call, t.broken);
      var o := Called(db, p.tmp, t.call, t.broken);
      if o.puts.Some? {
        EmitsDirect(db, p.tmp, m, t.call, t.broken);
        DirectNonNegative(m, t.call);
        WrittenAppend(db, p.puts, o.puts.value);
        assert (p.succeeded + [t.call])[..|p.succeeded|] == p.succeeded;
      }
    }
  }

  // ---- Conservation ----

  ghost function Total(m: Accounts, s: set<string>): int {
    Sum((a: string) => At(m, a).amount, s)
  }

  /** The change of the total: a transfer costs its fee, whoever the sender and the recipient are. */
  function Delta(c: Call): int {
    if c.Transfer? then -c.fee else if c.operation == PLUS then c.amount else -c.fee - c.amount
  }

  function Parties(c: Call): set<string> {
    if c.Transfer? then {c.sender, c.recipient} else {c.addr}
  }

  lemma DirectConserves(m: Accounts, c: Call, s: set<string>)
    requires Direct(m, c).Some? && Parties(c) <= s
    ensures Total(Direct(m, c).value, s) == Total(m, s) + Delta(c)
  {
    var m' := Direct(m, c).value;
    var f, g := (a: string) => At(m, a).amount, (a: string) => At(m', a).amount;
    if c.Transfer? && c.sender != c.recipient {
      SumMove(f, g, s, c.sender, c.recipient);
    } else {
      SumChange(f, g, s, if c.Transfer? then c.sender else c.addr);
    }
  }

  function Deltas(calls: seq<Call>): int {
    if calls == [] then 0 else Deltas(calls[..|calls| - 1]) + Delta(calls[|calls| - 1])
  }

  lemma {:induction false} TotalOverRun(db: Accounts, turns: seq<Turn>, s: set<string>)
    requires NonNegative(db) && Uninterrupted(db, turns)
    requires forall t <- turns :: Benign(t.call) && Parties(t.call) <= s
    ensures var p := Ran(db, turns);
            Total(Written(db, p.puts), s) == Total(db, s) + Deltas(p.succeeded)
  {
    CacheRefines(db, turns);
    if turns != [] {
      var before, t := turns[..|turns| - 1], turns[|turns| - 1];
      TotalOverRun(db, before, s);
      CacheRefines(db, before);
      var p := Ran(db, before);
      var m := Applied(db, p.succeeded);
      CallRefines(db, p.tmp, m, t.call, t.broken);
      if Called(db, p.tmp, t.call, t.broken).puts.Some? {
        assert (p.succeeded + [t.call])[..|p.succeeded|] == p.succeeded;
        DirectConserves(m, t.call, s);
      }
    }
  }

  /** An error leaves the sender debited when the recipient cannot be read. */
  lemma InterruptedTransfer()
    ensures var db := map["a" := Balance(10, 0)];
            var o := Called(db, map[], Transfer("a", "b", 0, 3, 1, false), {"b"});
            o.puts.None? && View(db, o.tmp, "a") == Balance(7, 1)
  {
    var db := map["a" := Balance(10, 0)];
    var c := Transfer("a", "b", 0, 3, 1, false);
    assert Fetched(db, map[], "a", {"b"}) == Some(db);
    assert "b" !in db["a" := Balance(7, 1)];
    assert Credited(db, db["a" := Balance(7, 1)], c, {"b"}).puts.None?;
  }

  // ---- The state object ----

  class State {
    var db: Accounts
    var tmpBalance: Accounts

    constructor (stored: Accounts)
      ensures db == stored && tmpBalance == map[]
    {
      db, tmpBalance := stored, map[];
    }

    method CheckBalance(balance: int, change: int, fee: int, operation: uint32) returns (ok: bool)
      ensures operation == PLUS ==> (ok <==> balance + change >= 0)
      ensures operation == SUB ==> (ok <==> balance >= fee + change)
      ensures operation > SUB ==> (ok <==> balance >= 0)
    {
      var tmp := balance;
      if operation == PLUS { tmp := tmp + change; }
      if operation == SUB { tmp := tmp - fee - change; }
      ok := tmp >= 0;
    }

    method GetTmpBalance(a: string, broken: set<string>) returns (b: Option<Balance>)
      modifies `tmpBalance
      ensures b.None? <==> Fetched(db, old(tmpBalance), a, broken).None?
      ensures b.None? ==> tmpBalance == old(tmpBalance)
      ensures b.Some? ==> Fetched(db, old(tmpBalance), a, broken) == Some(tmpBalance) && b.value == tmpBalance[a]
    {
      if a !in tmpBalance {
        if a in broken { return None; }
        tmpBalance := tmpBalance[a := At(db, a)];
      }
      b := Some(tmpBalance[a]);
    }

    method UpdateBalance(a: string, amount: int, nonce: uint32, fee: int, operation: uint32, broken: set<string>)
      returns (puts: Option<seq<Put>>)
      modifies `tmpBalance
      ensures Called(db, old(tmpBalance), Update(a, amount, nonce, fee, operation), broken) == Outcome(tmpBalance, puts)
    {
      var read := GetTmpBalance(a, broken);
      if read.None? { return None; }
      var b := read.value;
      if operation == PLUS {
        var ok := CheckBalance(b.amount, amount, 0, PLUS);
        if !ok { return None; }
        b := b.(amount := b.amount + amount);
      } else if operation == SUB {
        var ok := CheckBalance(b.amount, amount, fee, SUB);
        if !ok { return None; }
        b := Balance(b.amount - fee - amount, nonce);
      } else {
        return None;
      }
      tmpBalance := tmpBalance[a := b];
      puts := Some([Put(a, Stored(b))]);
    }

    method Transfer(sender: string, recipient: string, fee: int, amount: int, nonce: uint32, issue: bool, broken: set<string>)
      returns (puts: Option<seq<Put>>)
      modifies `tmpBalance
      ensures Called(db, old(tmpBalance), Call.Transfer(sender, recipient, fee, amount, nonce, issue), broken)
           == Outcome(tmpBalance, puts)
    {
      var read := GetTmpBalance(sender, broken);
      if read.None? { return None; }
      var s := read.value;
      if sender == recipient {
        var ok := CheckBalance(s.amount, 0, fee, SUB);
        if !ok && !issue { return None; }
        s := Balance(s.amount - fee, nonce);
        tmpBalance := tmpBalance[sender := s];
        return Some([Put(sender, Stored(s))]);
      }
      var ok := CheckBalance(s.amount, amount, fee, SUB);
      if !ok && !issue { return None; }
      s := Balance(s.amount - fee - amount, nonce);
      tmpBalance := tmpBalance[sender := s];
      puts := Credit(Call.Transfer(sender, recipient, fee, amount, nonce, issue), broken);
    }

    /** The second half of a transfer, with the sender already debited. */
    method Credit(c: Call, broken: set<string>) returns (puts: Option<seq<Put>>)
      requires c.Transfer? && c.sender in tmpBalance && c.sender != c.recipient
      modifies `tmpBalance
      ensures Credited(db, old(tmpBalance), c, broken) == Outcome(tmpBalance, puts)
    {
      var s := tmpBalance[c.sender];
      var read := GetTmpBalance(c.recipient, broken);
      if read.None? { return None; }
      var r := read.value;
      var ok := CheckBalance(r.amount, c.amount, 0, PLUS);
      if !ok && !c.issue { return None; }
      r := r.(amount := r.amount + c.amount);
      tmpBalance := tmpBalance[c.recipient := r];
      puts := Some([Put(c.sender, Stored(s)), Put(c.recipient, Stored(r))]);
    }

    /** AtomicWrite: all batches reach the database and the cache is dropped, or nothing happens. */
    method AtomicWrite(puts: seq<Put>, fails: bool) returns (ok: bool)
      modifies this
      ensures ok == !fails
      ensures ok ==> db == Written(old(db), puts) && tmpBalance == map[]
      ensures !ok ==> unchanged(this)
    {
      ok := !fails;
      if fails { return; }
      for i := 0 to |puts|
        invariant db == Written(old(db), puts[..i]) && tmpBalance == old(tmpBalance)
      {
        assert puts[..i + 1][..i] == puts[..i];
        db := db[puts[i].addr := puts[i].balance];
      }
      assert puts[..|puts|] == puts;
      tmpBalance := map[];
    }
  }

  /** Writing what a run emitted and dropping the cache shows what the cache showed. */
  lemma FlushKeepsView(db: Accounts, turns: seq<Turn>, a: string)
    requires NonNegative(db) && Uninterrupted(db, turns) && forall t <- turns :: Benign(t.call)
    ensures var p := Ran(db, turns); View(Written(db, p.puts), map[], a) == View(db, p.tmp, a)
  {
    CacheRefines(db, turns);
    var p := Ran(db, turns);
    assert View(db, p.tmp, a) == At(Applied(db, p.succeeded), a);
  }
}
