/** Ballots: one ticket per voter, tallied by the key of the ticket (components/utils/vote). */
module Votes {
  import opened Words

  /** The voters whose recorded ticket has key `k`. */
  ghost function Supporters<T, K>(tickets: map<string, T>, key: T -> K, k: K): set<string> {
    set v | v in tickets && key(tickets[v]) == k
  }

  /** Only the first ticket of a voter is kept. */
  function Recorded<T>(tickets: map<string, T>, voter: string, ticket: T): map<string, T> {
    if voter in tickets then tickets else tickets[voter := ticket]
  }

  /** A new voter joins exactly the supporters of the key of its ticket. */
  lemma RecordedSupporters<T, K>(tickets: map<string, T>, key: T -> K, voter: string, ticket: T, k: K)
    requires voter !in tickets
    ensures Supporters(Recorded(tickets, voter, ticket), key, k)
         == Supporters(tickets, key, k) + (if k == key(ticket) then {voter} else {})
    ensures voter !in Supporters(tickets, key, k)
  {
  }

  /** Two quorums of size `q` out of at most `n` voters share at least `2q - n` voters. */
  lemma QuorumIntersection(universe: set<string>, a: set<string>, b: set<string>, n: int, q: int)
    requires a <= universe && b <= universe && |universe| <= n
    requires |a| >= q && |b| >= q
    ensures |a * b| >= 2 * q - n
  {
    assert |a + b| == |a| + |b| - |a * b|;
    SubsetSize(a + b, universe);
  }

  lemma {:induction false} SubsetSize<T>(a: set<T>, b: set<T>)
    requires a <= b
    ensures |a| <= |b|
    decreases a
  {
    if a != {} {
      var x :| x in a;
      SubsetSize(a - {x}, b - {x});
    }
  }

  lemma DisjointSupporters<T, K>(tickets: map<string, T>, key: T -> K, k1: K, k2: K)
    requires k1 != k2
    ensures Supporters(tickets, key, k1) !! Supporters(tickets, key, k2)
  {
  }

  /** The tally as a whole. */
  ghost predicate Tallied<T, K>(tickets: map<string, T>, hashes: map<K, T>, statistics: map<K, nat>, key: T -> K) {
    && hashes.Keys == statistics.Keys
    && (forall v {:trigger VoterCounted(tickets, statistics, key, v)} | v in tickets :: VoterCounted(tickets, statistics, key, v))
    && (forall k {:trigger KeyCounted(tickets, hashes, statistics, key, k)} | k in statistics ::
          KeyCounted(tickets, hashes, statistics, key, k))
  }

  ghost predicate VoterCounted<T, K>(tickets: map<string, T>, statistics: map<K, nat>, key: T -> K, v: string) {
    v in tickets && key(tickets[v]) in statistics
  }

  /** `statistics` counts, for a key in use, the voters behind it; `hashes` holds a recorded ticket with that key. */
  ghost predicate KeyCounted<T, K>(tickets: map<string, T>, hashes: map<K, T>, statistics: map<K, nat>, key: T -> K, k: K) {
    && k in statistics && statistics[k] == |Supporters(tickets, key, k)| && statistics[k] > 0
    && k in hashes && key(hashes[k]) == k && Cast(tickets, hashes[k])
  }

  /** Some voter cast `ticket`. */
  ghost predicate Cast<T>(tickets: map<string, T>, ticket: T) {
    exists v :: v in tickets && tickets[v] == ticket
  }

  lemma AddTallied<T, K>(tickets: map<string, T>, hashes: map<K, T>, statistics: map<K, nat>, key: T -> K,
                         voter: string, ticket: T)
    requires Tallied(tickets, hashes, statistics, key) && voter !in tickets
    ensures var k := key(ticket);
            Tallied(tickets[voter := ticket], hashes[k := ticket],
                    statistics[k := if k in statistics then statistics[k] + 1 else 1], key)
  {
    var k := key(ticket);
    var tickets' := tickets[voter := ticket];
    var hashes' := hashes[k := ticket];
    var statistics' := statistics[k := if k in statistics then statistics[k] + 1 else 1];
    forall v | v in tickets' ensures VoterCounted(tickets', statistics', key, v) {
      if v != voter { assert VoterCounted(tickets, statistics, key, v); }
    }
    forall j | j in statistics' ensures KeyCounted(tickets', hashes', statistics', key, j) {
      RecordedSupporters(tickets, key, voter, ticket, j);
      assert tickets' == Recorded(tickets, voter, ticket);
      if j in statistics { assert KeyCounted(tickets, hashes, statistics, key, j); }
      else { NotCounted(tickets, hashes, statistics, key, j); }
      if j == k {
        assert tickets'[voter] == ticket;
      } else {
        var v :| v in tickets && tickets[v] == hashes[j];
        assert tickets'[v] == hashes'[j];
      }
    }
  }

  lemma NotCounted<T, K>(tickets: map<string, T>, hashes: map<K, T>, statistics: map<K, nat>, key: T -> K, k: K)
    requires Tallied(tickets, hashes, statistics, key) && k !in statistics
    ensures Supporters(tickets, key, k) == {}
  {
    forall v | v in tickets ensures key(tickets[v]) != k {
      assert VoterCounted(tickets, statistics, key, v);
    }
  }

  class Vote<T(==), K(==)> {
    const key: T -> K
    var tickets: map<string, T>
    var hashes: map<K, T>
    var statistics: map<K, nat>

    ghost predicate Valid()
      reads this
    {
      Tallied(tickets, hashes, statistics, key)
    }

    constructor (key: T -> K)
      ensures Valid() && this.key == key && tickets == map[]
    {
      this.key := key;
      tickets, hashes, statistics := map[], map[], map[];
    }

    method Clear()
      modifies `tickets, `hashes, `statistics
      ensures Valid() && tickets == map[]
    {
      tickets, hashes, statistics := map[], map[], map[];
    }

    method Size() returns (n: nat)
      ensures n == |tickets|
    {
      n := |tickets|;
    }

    /** The first ticket of a voter is recorded and counted, later ones are ignored. */
    method Add(voter: string, ticket: T)
      requires Valid()
      modifies `tickets, `hashes, `statistics
      ensures Valid() && tickets == Recorded(old(tickets), voter, ticket)
    {
      if voter in tickets {
        return;
      }
      AddTallied(tickets, hashes, statistics, key, voter, ticket);
      tickets := tickets[voter := ticket];
      var hash := key(ticket);
      hashes := hashes[hash := ticket];
      statistics := statistics[hash := if hash in statistics then statistics[hash] + 1 else 1];
    }

    /** A ticket with the largest number of supporters, whatever the order of the map. */
    method Voter() returns (n: nat, ticket: Option<T>)
      requires Valid()
      ensures tickets == map[] ==> n == 0 && ticket == None
      ensures tickets != map[] ==> ticket.Some? && Cast(tickets, ticket.value)
      ensures ticket.Some? ==> n == |Supporters(tickets, key, key(ticket.value))|
      ensures forall k {:trigger Supporters(tickets, key, k)} :: |Supporters(tickets, key, k)| <= n
    {
      n, ticket := 0, None;
      var left := statistics.Keys;
      while left != {}
        invariant left <= statistics.Keys
        invariant forall k | k in statistics.Keys - left :: statistics[k] <= n
        invariant ticket == None ==> n == 0 && left == statistics.Keys
        invariant ticket.Some? ==> Cast(tickets, ticket.value) && key(ticket.value) in statistics
                                   && n == statistics[key(ticket.value)]
        decreases left
      {
        var k :| k in left;
        assert KeyCounted(tickets, hashes, statistics, key, k);
        if n < statistics[k] {
          n, ticket := statistics[k], Some(hashes[k]);
        }
        left := left - {k};
      }
      if tickets != map[] {
        ghost var v :| v in tickets;
        assert VoterCounted(tickets, statistics, key, v);
      }
      if ticket.Some? { assert KeyCounted(tickets, hashes, statistics, key, key(ticket.value)); }
      forall k {:trigger Supporters(tickets, key, k)} ensures |Supporters(tickets, key, k)| <= n {
        if k in statistics { assert KeyCounted(tickets, hashes, statistics, key, k); }
        else { NotCounted(tickets, hashes, statistics, key, k); }
      }
    }

    /** How many voters stand behind the key of `ticket`. */
    method VoterByTicket(ticket: T) returns (n: nat)
      requires Valid()
      ensures n == |Supporters(tickets, key, key(ticket))|
    {
      if key(ticket) in statistics {
        assert KeyCounted(tickets, hashes, statistics, key, key(ticket));
        n := statistics[key(ticket)];
      } else {
        NotCounted(tickets, hashes, statistics, key, key(ticket));
        n := 0;
      }
    }

    /** The ticket of `voter` and how many voters share its key. */
    method VoterByVoter(voter: string) returns (n: nat, ticket: Option<T>)
      requires Valid()
      ensures voter !in tickets ==> n == 0 && ticket == None
      ensures voter in tickets ==> ticket == Some(tickets[voter])
                                   && n == |Supporters(tickets, key, key(tickets[voter]))| > 0
    {
      if voter !in tickets {
        return 0, None;
      }
      assert VoterCounted(tickets, statistics, key, voter);
      assert KeyCounted(tickets, hashes, statistics, key, key(tickets[voter]));
      return statistics[key(tickets[voter])], Some(tickets[voter]);
    }
  }
}
