/** The quorum a replica starts with (core/consensus/lbft/lbft.go, NewLbft) and what it means for agreement. */
module Quorum {
  import opened Words
  import opened Messages
  import P = Protocol
  import D = Delivery

  /** NewLbft: fewer than four replicas are refused; too small a quorum is replaced. */
  function Normalised(n: int, q: int): Option<int> {
    if n < 4 then None
    else if 3 * q + 1 < n * 2 then Some((n * 2 - 1) / 3 + 1)
    else Some(q)
  }

  /** From four replicas on, whatever was configured, two quorums of the normalised size share at least a third of the replicas, rounded up
      from (N - 2) / 3, and never fewer than one; a quorum has at least three members; normalising again changes
      nothing; a quorum is replaced exactly when it is too small, and then is the smallest with 3Q >= 2N and can be reached. */
  lemma NormalisedQuorum(n: int, q: int)
    ensures Normalised(n, q).Some? <==> n >= 4
    ensures n >= 4 ==>
            var r := Normalised(n, q).value;
            && (r == q <==> 3 * q + 1 >= 2 * n) && 3 * r + 1 >= 2 * n && 3 * (2 * r - n) >= n - 2 && 2 * r - n >= 1 && r >= 3 && q <= r
            && Normalised(n, r) == Some(r)
            && (r != q ==> r <= n && 3 * r >= 2 * n && 3 * (r - 1) < 2 * n)
  {
  }

  /** With the normalised quorum, logs agree as long as fewer than (N - 2) / 3 replicas announced two batches at one
      seqNo: in particular when none did. */
  lemma NormalisedAgreement(cfg: P.Config, configured: int, run: seq<P.System>, es: seq<P.Event>, a: string, b: string,
                            x: D.Entry<RequestBatch>, y: D.Entry<RequestBatch>)
    requires cfg.Valid() && P.IsRun(cfg, run, es) && Normalised(cfg.n, configured) == Some(cfg.q)
    requires 3 * |P.Equivocators(cfg, P.Final(run).sent)| < cfg.n - 2
    requires a in cfg.replicas && b in cfg.replicas
    requires a in P.Final(run).replicas && b in P.Final(run).replicas
    requires x in P.Final(run).replicas[a].log.out && y in P.Final(run).replicas[b].log.out
    requires x.seqNo == y.seqNo && x.batch.Some? && y.batch.Some?
    ensures x.batch == y.batch
  {
    NormalisedQuorum(cfg.n, configured);
    P.LogAgreement(cfg, run, es, a, b, x, y);
  }
}
