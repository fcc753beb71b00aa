/** The records exchanged by the replicas (core/consensus/lbft/message.go, serialize.go).
    The SHA-256 digest of a batch is taken to be collision-free, so the batch stands for its digest. */
module Messages {
  import opened Words

  /** The identifier of a batch that only closes a block. */
  const EMPTY_BLOCK: int := 1136160000

  datatype Request = Request(fromChain: string, toChain: string, transaction: nat)

  datatype RequestBatch = RequestBatch(time: uint32, requests: seq<Request>, id: int, index: uint32, height: uint32) {
    function FromChain(): string {
      if requests == [] then "" else requests[0].fromChain
    }

    function ToChain(): string {
      if requests == [] then ""
      else if index == 0 then FromChain()
      else requests[0].toChain
    }

    function Key(): Name {
      Name(FromChain(), ToChain(), this)
    }
  }

  /** The name of a consensus instance: both chains and the digest of the batch. */
  datatype Name = Name(fromChain: string, toChain: string, digest: RequestBatch)

  datatype Digest = NoDigest | DigestOf(batch: RequestBatch)

  datatype PrePrepare = PrePrepare(name: Name, primaryID: string, chain: string, replicaID: string,
                                   seqNo: uint64, requests: RequestBatch)

  /** Prepare and Commit messages have the same fields. */
  datatype PhaseVote = PhaseVote(name: Name, primaryID: string, chain: string, replicaID: string,
                                 seqNo: uint64, digest: Digest, quorum: uint64)

  datatype Committed = Committed(name: Name, primaryID: string, chain: string, replicaID: string,
                                 seqNo: uint64, batch: RequestBatch)

  /** Tickets are compared with the sender erased. */
  function PhaseKey(v: PhaseVote): PhaseVote { v.(replicaID := "") }

  function CommittedKey(c: Committed): Committed { c.(replicaID := "") }

  /** Two votes count together exactly when they agree in everything but the sender. */
  lemma PhaseKeyExact(v: PhaseVote, w: PhaseVote)
    ensures PhaseKey(v) == PhaseKey(w) <==>
              && v.name == w.name && v.primaryID == w.primaryID && v.chain == w.chain
              && v.seqNo == w.seqNo && v.digest == w.digest && v.quorum == w.quorum
  {
  }

  /** The same for announcements. */
  lemma CommittedKeyExact(c: Committed, d: Committed)
    ensures CommittedKey(c) == CommittedKey(d) <==>
              c.name == d.name && c.primaryID == d.primaryID && c.chain == d.chain && c.seqNo == d.seqNo && c.batch == d.batch
  {
  }
}
