/** The memo table of the search: pairs of a bitset and a model state, in buckets by hash. */
module MemoTable {
  import opened Linearizability
  import opened Bitset
  import opened Search

  datatype CacheEntry<S> = CacheEntry(linearized: Bitset, state: S)

  class MemoTable<S(!new)> {
    var buckets: map<nat, seq<CacheEntry<S>>>
    /** The bitsets of all stored entries; none of them changes any more. */
    ghost var repr: set<Bitset>
    /** What the table holds, as sets of linearized operations and states. */
    ghost var pairs: set<Pair<S>>
    const length: nat

    ghost predicate Valid()
      reads this, repr
    {
      && (forall hash, k :: hash in buckets && 0 <= k < |buckets[hash]| ==> Stored(hash, k))
      && (forall c :: c in pairs ==> exists hash: nat, k: nat :: Found(c, hash, k))
    }

    ghost predicate Stored(hash: nat, k: nat)
      requires hash in buckets && k < |buckets[hash]|
      reads this, repr
    {
      var e := buckets[hash][k];
      && e.linearized in repr && e.linearized.Length == length
      && HashOf(e.linearized[..]) == hash
      && (Members(e.linearized), e.state) in pairs
    }

    ghost predicate Found(c: Pair<S>, hash: nat, k: nat)
      reads this, repr
    {
      && hash in buckets && k < |buckets[hash]|
      && buckets[hash][k].linearized in repr
      && c == (Members(buckets[hash][k].linearized), buckets[hash][k].state)
    }

    constructor (length: nat)
      ensures Valid() && repr == {} && pairs == {} && this.length == length
    {
      this.length := length;
      buckets, repr, pairs := map[], {}, {};
    }

    /** `cacheContains`: only the bucket of the entry's hash is looked at, yet nothing is missed. */
    method Contains<V(!new)>(m: Model<S, V>, e: CacheEntry<S>) returns (r: bool)
      requires Valid() && e.linearized.Length == length
      ensures r <==> exists c :: c in pairs && c.0 == Members(e.linearized) && m.equal(e.state, c.1)
    {
      var hash := Hash(e.linearized);
      var bucket: seq<CacheEntry<S>> := if hash in buckets then buckets[hash] else [];
      for k := 0 to |bucket|
        invariant Valid()
        invariant forall j :: 0 <= j < k ==>
                    !(bucket[j].linearized[..] == e.linearized[..] && m.equal(e.state, bucket[j].state))
      {
        assert Stored(hash, k);
        var same := Equals(e.linearized, bucket[k].linearized);
        if same && m.equal(e.state, bucket[k].state) {
          assert (Members(bucket[k].linearized), bucket[k].state) in pairs;
          return true;
        }
      }
      r := false;
      forall c | c in pairs && c.0 == Members(e.linearized) ensures !m.equal(e.state, c.1) {
        var hash': nat, k: nat :| Found(c, hash', k);
        assert Stored(hash', k);
        SameMembers(e.linearized[..], buckets[hash'][k].linearized[..]);
        assert bucket[k].state == c.1;
      }
    }

    /** Appends the entry to the bucket of its hash; the table then owns the bitset. */
    method Add(e: CacheEntry<S>)
      requires Valid() && e.linearized.Length == length && e.linearized !in repr
      modifies this
      ensures Valid()
      ensures repr == old(repr) + {e.linearized}
      ensures pairs == old(pairs) + {(Members(e.linearized), e.state)}
    {
      var hash := Hash(e.linearized);
      Put(e, hash);
    }

    method Put(e: CacheEntry<S>, hash: nat)
      requires Valid() && e.linearized.Length == length && e.linearized !in repr && hash == HashOf(e.linearized[..])
      modifies this
      ensures Valid()
      ensures repr == old(repr) + {e.linearized}
      ensures pairs == old(pairs) + {(Members(e.linearized), e.state)}
    {
      var bucket := if hash in buckets then buckets[hash] else [];
      buckets := buckets[hash := bucket + [e]];
      repr := repr + {e.linearized};
      pairs := pairs + {(Members(e.linearized), e.state)};
      forall h, k | h in buckets && 0 <= k < |buckets[h]| ensures Stored(h, k) {
        if h != hash || k < |bucket| {
          assert old(Stored(h, k));
          assert buckets[h][k] == old(buckets)[h][k];
        }
      }
      forall c | c in pairs ensures exists h: nat, k: nat :: Found(c, h, k) {
        if c in old(pairs) {
          var h: nat, k: nat :| old(Found(c, h, k));
          assert buckets[h][k] == old(buckets)[h][k];
          assert Found(c, h, k);
        } else {
          assert Found(c, hash, |bucket|);
        }
      }
    }
  }
}
