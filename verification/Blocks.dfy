/**
 * Cutting the delivered stream into blocks (core/consensus/lbft/lbft.go, handleCommittedRequestBatch and
 * writeBlock).
 */
module Blocks {
  import opened Words
  import opened Messages

  /** A delivered batch with its sequence number. */
  datatype Delivered = Delivered(seqNo: uint64, batch: RequestBatch)

  /** Batches of this chain, and those that only close a block, decide where blocks end. */
  predicate Local(d: Delivered, chain: string) {
    d.batch.id == EMPTY_BLOCK || d.batch.FromChain() == chain
  }

  /** The height of the block being filled (0 before the first local batch), its batches, and the blocks
      written. */
  datatype State = State(height: uint32, pending: seq<Delivered>, blocks: seq<seq<Delivered>>)

  const START := State(0, [], [])

  function Taken(s: State, d: Delivered, chain: string): State {
    if !Local(d, chain) then s.(pending := s.pending + [d])
    else if s.height == 0 || s.height == d.batch.height then s.(height := d.batch.height, pending := s.pending + [d])
    else State(d.batch.height, [d], if s.pending == [] then s.blocks else s.blocks + [s.pending])
  }

  function Ran(stream: seq<Delivered>, chain: string): State {
    if stream == [] then START else Taken(Ran(stream[..|stream| - 1], chain), stream[|stream| - 1], chain)
  }

  // ---- Nothing is lost ----

  function Concat(blocks: seq<seq<Delivered>>): seq<Delivered> {
    if blocks == [] then [] else Concat(blocks[..|blocks| - 1]) + blocks[|blocks| - 1]
  }

  function All(s: State): seq<Delivered> {
    Concat(s.blocks) + s.pending
  }

  lemma ConcatNext(blocks: seq<seq<Delivered>>, block: seq<Delivered>)
    ensures Concat(blocks + [block]) == Concat(blocks) + block
  {
    assert (blocks + [block])[..|blocks|] == blocks;
  }

  lemma Regroup(a: seq<Delivered>, b: seq<Delivered>, d: Delivered)
    ensures a + (b + [d]) == a + b + [d]
  {
  }

  lemma TakeKeepsAll(s: State, d: Delivered, chain: string)
    ensures All(Taken(s, d, chain)) == All(s) + [d]
  {
    Regroup(Concat(s.blocks), s.pending, d);
    ConcatNext(s.blocks, s.pending);
    if s.pending == [] { assert All(s) == Concat(s.blocks); }
  }

  lemma OneMoreTaken(s: State, before: seq<Delivered>, d: Delivered, stream: seq<Delivered>, chain: string)
    requires All(s) == before && stream == before + [d]
    ensures All(Taken(s, d, chain)) == stream
  {
    TakeKeepsAll(s, d, chain);
  }

  /** The written blocks followed by the pending one are the delivered stream. */
  lemma {:induction false} NothingLost(stream: seq<Delivered>, chain: string)
    ensures All(Ran(stream, chain)) == stream
  {
    if stream != [] {
      var before, d := stream[..|stream| - 1], stream[|stream| - 1];
      NothingLost(before, chain);
      assert before + [d] == stream;
      OneMoreTaken(Ran(before, chain), before, d, stream, chain);
    }
  }

  // ---- One height per block ----

  function Locals(ds: seq<Delivered>, chain: string): seq<Delivered> {
    if ds == [] then []
    else
      var d := ds[|ds| - 1];
      Locals(ds[..|ds| - 1], chain) + if Local(d, chain) then [d] else []
  }

  ghost predicate OneHeight(ds: seq<Delivered>, chain: string) {
    forall i, j :: 0 <= i < j < |ds| && Local(ds[i], chain) && Local(ds[j], chain) ==> ds[i].batch.height == ds[j].batch.height
  }

  ghost predicate AllOneHeight(s: State, chain: string) {
    OneHeight(s.pending, chain) && forall i :: 0 <= i < |s.blocks| ==> OneHeight(s.blocks[i], chain)
  }

  /** A local batch of height 0 directly before one with another height, among the local batches. */
  ghost predicate ZeroStep(locals: seq<Delivered>) {
    exists i :: 0 < i < |locals| && locals[i - 1].batch.height == 0 && locals[i].batch.height != 0
  }

  /** The cutter's height is that of the last local batch, which is pending. */
  ghost predicate Current(s: State, locals: seq<Delivered>, chain: string) {
    && (locals == [] ==> s.height == 0 && s.blocks == [] && forall i :: 0 <= i < |s.pending| ==> !Local(s.pending[i], chain))
    && (locals != [] ==>
        && s.height == locals[|locals| - 1].batch.height
        && locals[|locals| - 1] in s.pending && Local(locals[|locals| - 1], chain))
  }

  lemma ZeroStepNext(locals: seq<Delivered>, d: Delivered)
    ensures ZeroStep(locals + [d]) <==>
              ZeroStep(locals) || (locals != [] && locals[|locals| - 1].batch.height == 0 && d.batch.height != 0)
  {
    var next := locals + [d];
    if ZeroStep(locals) {
      var i :| 0 < i < |locals| && locals[i - 1].batch.height == 0 && locals[i].batch.height != 0;
      assert next[i - 1].batch.height == 0 && next[i].batch.height != 0;
    }
    if locals != [] && locals[|locals| - 1].batch.height == 0 && d.batch.height != 0 {
      assert next[|locals| - 1].batch.height == 0 && next[|locals|].batch.height != 0;
    }
  }

  lemma OneHeightNext(pending: seq<Delivered>, last: Delivered, d: Delivered, chain: string)
    requires last in pending && Local(last, chain) && Local(d, chain)
    ensures OneHeight(pending + [d], chain) <==> OneHeight(pending, chain) && last.batch.height == d.batch.height
  {
    var next := pending + [d];
    var k :| 0 <= k < |pending| && pending[k] == last;
    if OneHeight(next, chain) {
      assert next[k] == last && next[|pending|] == d;
      forall i, j | 0 <= i < j < |pending| && Local(pending[i], chain) && Local(pending[j], chain)
        ensures pending[i].batch.height == pending[j].batch.height
      {
        assert next[i] == pending[i] && next[j] == pending[j];
      }
    }
    if OneHeight(pending, chain) && last.batch.height == d.batch.height {
      forall i | 0 <= i < |pending| && Local(pending[i], chain) ensures pending[i].batch.height == last.batch.height {
        assert i == k || i < k || k < i;
      }
    }
  }

  lemma RemoteStep(s: State, locals: seq<Delivered>, d: Delivered, chain: string)
    requires Current(s, locals, chain) && !Local(d, chain)
    ensures Current(Taken(s, d, chain), locals, chain)
    ensures AllOneHeight(Taken(s, d, chain), chain) <==> AllOneHeight(s, chain)
  {
    var next := s.pending + [d];
    if OneHeight(next, chain) {
      forall i, j | 0 <= i < j < |s.pending| && Local(s.pending[i], chain) && Local(s.pending[j], chain)
        ensures s.pending[i].batch.height == s.pending[j].batch.height
      {
        assert next[i] == s.pending[i] && next[j] == s.pending[j];
      }
    }
  }

  lemma CutStep(s: State, d: Delivered, chain: string)
    requires s.pending != []
    ensures AllOneHeight(State(d.batch.height, [d], s.blocks + [s.pending]), chain) <==> AllOneHeight(s, chain)
  {
    var blocks := s.blocks + [s.pending];
    if forall i :: 0 <= i < |blocks| ==> OneHeight(blocks[i], chain) {
      assert OneHeight(blocks[|s.blocks|], chain);
      forall i | 0 <= i < |s.blocks| ensures OneHeight(s.blocks[i], chain) { assert blocks[i] == s.blocks[i]; }
    }
  }

  lemma LocalStep(s: State, locals: seq<Delivered>, d: Delivered, chain: string)
    requires Current(s, locals, chain) && Local(d, chain) && (AllOneHeight(s, chain) <==> !ZeroStep(locals))
    ensures Current(Taken(s, d, chain), locals + [d], chain)
    ensures AllOneHeight(Taken(s, d, chain), chain) <==> !ZeroStep(locals + [d])
  {
    ZeroStepNext(locals, d);
    if locals == [] {
      FirstLocal(s.pending, d, chain);
    } else if s.height == 0 || s.height == d.batch.height {
      OneHeightNext(s.pending, locals[|locals| - 1], d, chain);
    } else {
      CutStep(s, d, chain);
    }
  }

  lemma FirstLocal(pending: seq<Delivered>, d: Delivered, chain: string)
    requires forall i :: 0 <= i < |pending| ==> !Local(pending[i], chain)
    ensures OneHeight(pending + [d], chain)
  {
  }

  lemma {:induction false} HeightsTracked(stream: seq<Delivered>, chain: string)
    ensures Current(Ran(stream, chain), Locals(stream, chain), chain)
    ensures AllOneHeight(Ran(stream, chain), chain) <==> !ZeroStep(Locals(stream, chain))
  {
    if stream != [] {
      var before, d := stream[..|stream| - 1], stream[|stream| - 1];
      HeightsTracked(before, chain);
      if Local(d, chain) {
        LocalStep(Ran(before, chain), Locals(before, chain), d, chain);
      } else {
        RemoteStep(Ran(before, chain), Locals(before, chain), d, chain);
        assert Locals(before, chain) + [] == Locals(before, chain);
      }
    }
  }

  /** The local batches of every block share one height exactly when no local batch of height 0 comes
      directly before one with another height; with heights from 1 on they always do. */
  lemma OneHeightExact(stream: seq<Delivered>, chain: string)
    ensures AllOneHeight(Ran(stream, chain), chain) <==> !ZeroStep(Locals(stream, chain))
    ensures (forall d <- stream :: d.batch.height >= 1) ==> AllOneHeight(Ran(stream, chain), chain)
  {
    HeightsTracked(stream, chain);
    if forall d <- stream :: d.batch.height >= 1 { LocalsFrom(stream, chain); }
  }

  lemma {:induction false} LocalsFrom(stream: seq<Delivered>, chain: string)
    ensures forall d <- Locals(stream, chain) :: d in stream
  {
    if stream != [] { LocalsFrom(stream[..|stream| - 1], chain); }
  }

  /** A batch of height 0 joins the block of the next height. */
  lemma ZeroHeightMixes(a: Delivered, b: Delivered, chain: string)
    requires Local(a, chain) && Local(b, chain) && a.batch.height == 0 && b.batch.height == 1
    ensures Ran([a, b], chain) == State(1, [a, b], []) && !OneHeight([a, b], chain)
  {
    assert [a, b][..1] == [a] && [a][..0] == [];
    assert Ran([a], chain) == State(0, [a], []);
    var ab := [a, b];
    assert ab[0] == a && ab[1] == b;
  }

  // ---- Where blocks begin ----

  /** The height of the last local batch. */
  function LastHeight(ds: seq<Delivered>, chain: string): Option<uint32> {
    if ds == [] then None
    else if Local(ds[|ds| - 1], chain) then Some(ds[|ds| - 1].batch.height)
    else LastHeight(ds[..|ds| - 1], chain)
  }

  function Following(s: State, i: nat): seq<Delivered>
    requires i < |s.blocks|
  {
    if i + 1 < |s.blocks| then s.blocks[i + 1] else s.pending
  }

  /** A block ends only where a local batch brings another height, and that batch begins the next one. */
  ghost predicate WellCut(s: State, chain: string) {
    && (s.height != 0 ==> LastHeight(s.pending, chain) == Some(s.height))
    && forall i :: 0 <= i < |s.blocks| ==> s.blocks[i] != [] && CutBetween(s.blocks[i], Following(s, i), chain)
  }

  ghost predicate CutBetween(block: seq<Delivered>, next: seq<Delivered>, chain: string) {
    && next != [] && Local(next[0], chain)
    && LastHeight(block, chain).Some? && LastHeight(block, chain).value !in {0, next[0].batch.height}
  }

  lemma LastHeightNext(ds: seq<Delivered>, d: Delivered, chain: string)
    ensures LastHeight(ds + [d], chain) == if Local(d, chain) then Some(d.batch.height) else LastHeight(ds, chain)
  {
    assert (ds + [d])[..|ds|] == ds;
  }

  lemma CutStepWell(s: State, d: Delivered, chain: string)
    requires WellCut(s, chain)
    ensures WellCut(Taken(s, d, chain), chain)
  {
    var s' := Taken(s, d, chain);
    LastHeightNext(s.pending, d, chain);
    LastHeightNext([], d, chain);
    assert [] + [d] == [d];
    forall i | 0 <= i < |s'.blocks| ensures s'.blocks[i] != [] && CutBetween(s'.blocks[i], Following(s', i), chain) {
      if i < |s.blocks| {
        assert s.blocks[i] != [] && CutBetween(s.blocks[i], Following(s, i), chain);
        assert Following(s', i) != [] && Following(s', i)[0] == Following(s, i)[0];
      }
    }
  }

  lemma {:induction false} BlocksWellCut(stream: seq<Delivered>, chain: string)
    ensures WellCut(Ran(stream, chain), chain)
  {
    if stream != [] {
      BlocksWellCut(stream[..|stream| - 1], chain);
      CutStepWell(Ran(stream[..|stream| - 1], chain), stream[|stream| - 1], chain);
    }
  }

  // ---- What is written ----

  datatype CommittedTxs = CommittedTxs(skip: bool, isLocalChain: bool, time: uint32, transactions: seq<nat>, seqNo: uint64)

  datatype Output = Output(outputs: seq<CommittedTxs>, height: uint32)

  /** The transactions of the requests in order. */
  ghost predicate TransactionsOf(txs: seq<nat>, b: RequestBatch) {
    |txs| == |b.requests| && forall k :: 0 <= k < |txs| ==> txs[k] == b.requests[k].transaction
  }

  /** The i-th batch is the first one of this chain in the block. */
  ghost predicate FirstOfChain(block: seq<Delivered>, i: nat, chain: string)
    requires i < |block|
  {
    block[i].batch.FromChain() == chain && forall j :: 0 <= j < i ==> block[j].batch.FromChain() != chain
  }

  /** The output for the i-th batch: its transactions, marked to be skipped if it is the first batch of this
      chain. */
  ghost predicate DescribesOne(c: CommittedTxs, block: seq<Delivered>, i: nat, chain: string)
    requires i < |block|
  {
    && c.seqNo == block[i].seqNo && c.time == block[i].batch.time
    && TransactionsOf(c.transactions, block[i].batch)
    && (c.isLocalChain <==> block[i].batch.FromChain() == chain)
    && (c.skip <==> FirstOfChain(block, i, chain))
  }

  /** The output lists all batches of the block in order. */
  ghost predicate Describes(outputs: seq<CommittedTxs>, block: seq<Delivered>, chain: string) {
    |outputs| == |block| && forall i :: 0 <= i < |block| ==> DescribesOne(outputs[i], block, i, chain)
  }

  /** The height written for a block, that of its first batch, is the one its local batches have. */
  ghost predicate RightHeight(block: seq<Delivered>, chain: string) {
    forall j :: 0 <= j < |block| && Local(block[j], chain) ==> block[j].batch.height == block[0].batch.height
  }

  lemma {:induction false} LastHeightOfLocal(ds: seq<Delivered>, chain: string) returns (j: nat)
    requires LastHeight(ds, chain).Some?
    ensures j < |ds| && Local(ds[j], chain) && LastHeight(ds, chain) == Some(ds[j].batch.height)
  {
    if Local(ds[|ds| - 1], chain) {
      j := |ds| - 1;
    } else {
      j := LastHeightOfLocal(ds[..|ds| - 1], chain);
    }
  }

  /** Every written block has the height its local batches share if and only if they share one and, for a first block that
      begins with a remote batch, that batch has it too. */
  lemma OutputHeight(stream: seq<Delivered>, i: nat, chain: string)
    requires i < |Ran(stream, chain).blocks|
    ensures var block := Ran(stream, chain).blocks[i];
            && block != []
            && (RightHeight(block, chain) <==>
                  && OneHeight(block, chain)
                  && (i == 0 && !Local(block[0], chain) ==> LastHeight(block, chain) == Some(block[0].batch.height)))
  {
    var s := Ran(stream, chain);
    BlocksWellCut(stream, chain);
    var block := s.blocks[i];
    assert CutBetween(block, Following(s, i), chain);
    if i > 0 { assert CutBetween(s.blocks[i - 1], Following(s, i - 1), chain); }
    RightExact(block, chain);
  }

  lemma RightExact(block: seq<Delivered>, chain: string)
    requires block != [] && LastHeight(block, chain).Some?
    ensures RightHeight(block, chain) <==>
              OneHeight(block, chain) && (!Local(block[0], chain) ==> LastHeight(block, chain) == Some(block[0].batch.height))
  {
    var last := LastHeightOfLocal(block, chain);
    if OneHeight(block, chain) && (Local(block[0], chain) || LastHeight(block, chain) == Some(block[0].batch.height)) {
      forall j | 0 <= j < |block| && Local(block[j], chain) ensures block[j].batch.height == block[0].batch.height {
        assert j == last || block[j].batch.height == block[last].batch.height;
        assert Local(block[0], chain) && last != 0 ==> block[0].batch.height == block[last].batch.height;
      }
    }
  }

  /** A first block that begins with a remote batch is written with the height of that batch. */
  lemma RemoteFirst(a: Delivered, b: Delivered, c: Delivered, chain: string)
    requires !Local(a, chain) && Local(b, chain) && Local(c, chain)
    requires a.batch.height == 7 && b.batch.height == 1 && c.batch.height == 2
    ensures Ran([a, b, c], chain) == State(2, [c], [[a, b]])
    ensures OneHeight([a, b], chain) && !RightHeight([a, b], chain)
  {
    assert [a, b, c][..2] == [a, b] && [a, b][..1] == [a] && [a][..0] == [];
    assert Ran([a], chain) == State(0, [a], []);
    assert Ran([a, b], chain) == State(1, [a, b], []);
    var ab := [a, b];
    assert ab[0] == a && ab[1] == b;
  }

  class Cutter {
    const chain: string
    var height: uint32
    var committedBlock: seq<Delivered>
    var written: seq<Output>
    ghost var blocks: seq<seq<Delivered>>

    ghost predicate Valid()
      reads this
    {
      && |written| == |blocks|
      && forall i :: 0 <= i < |blocks| ==>
           blocks[i] != [] && Describes(written[i].outputs, blocks[i], chain) && written[i].height == blocks[i][0].batch.height
    }

    ghost function Abstract(): State
      reads this
    {
      State(height, committedBlock, blocks)
    }

    constructor (chain: string)
      ensures Valid() && Abstract() == START && this.chain == chain
    {
      this.chain := chain;
      height, committedBlock, written, blocks := 0, [], [], [];
    }

    method CollectTransactions(b: RequestBatch) returns (txs: seq<nat>)
      ensures |txs| == |b.requests| && forall k :: 0 <= k < |txs| ==> txs[k] == b.requests[k].transaction
    {
      txs := [];
      for i := 0 to |b.requests|
        invariant |txs| == i && forall k :: 0 <= k < i ==> txs[k] == b.requests[k].transaction
      {
        txs := txs + [b.requests[i].transaction];
      }
    }

    method OutputsOf(block: seq<Delivered>) returns (cts: seq<CommittedTxs>)
      ensures Describes(cts, block, chain)
    {
      cts := [];
      var concurrentNumFrom := 0;
      for i := 0 to |block|
        invariant |cts| == i && forall k :: 0 <= k < i ==> DescribesOne(cts[k], block, k, chain)
        invariant concurrentNumFrom == 0 <==> forall j :: 0 <= j < i ==> block[j].batch.FromChain() != chain
        invariant concurrentNumFrom >= 0
      {
        var d := block[i];
        var txs := CollectTransactions(d.batch);
        var mine := d.batch.FromChain() == chain;
        if mine { concurrentNumFrom := concurrentNumFrom + 1; }
        cts := cts + [CommittedTxs(mine && concurrentNumFrom == 1, mine, d.batch.time, txs, d.seqNo)];
      }
    }

    /** writeBlock: the batches gathered are written as one output. */
    method WriteBlock()
      requires Valid()
      modifies this
      ensures Valid() && height == old(height) && committedBlock == []
      ensures old(written) <= written && |written| == |old(written)| + if old(committedBlock) == [] then 0 else 1
      ensures blocks == if old(committedBlock) == [] then old(blocks) else old(blocks) + [old(committedBlock)]
    {
      if |committedBlock| == 0 { return; }
      var cts := OutputsOf(committedBlock);
      written := written + [Output(cts, committedBlock[0].batch.height)];
      blocks := blocks + [committedBlock];
      committedBlock := [];
    }

    /** One round of handleCommittedRequestBatch: a batch is gathered, and what was gathered before it is written first
        exactly when it closes a block or comes from this chain with another height than the one being filled. */
    method Take(d: Delivered)
      requires Valid()
      modifies this
      ensures Valid() && Abstract() == Taken(old(Abstract()), d, chain)
      ensures var mine := d.batch.id == EMPTY_BLOCK || d.batch.FromChain() == chain;
              var cut := mine && old(height) != 0 && old(height) != d.batch.height;
              && height == (if mine then d.batch.height else old(height))
              && committedBlock == (if cut then [d] else old(committedBlock) + [d])
              && old(written) <= written && |written| == |old(written)| + if cut && old(committedBlock) != [] then 1 else 0
    {
      if d.batch.id == EMPTY_BLOCK || d.batch.FromChain() == chain {
        if height == 0 || height == d.batch.height {
          committedBlock := committedBlock + [d];
          height := d.batch.height;
        } else {
          WriteBlock();
          committedBlock := [d];
          height := d.batch.height;
        }
      } else {
        committedBlock := committedBlock + [d];
      }
    }
  }
}
