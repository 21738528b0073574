/** The cache of checkSingle: a hash table from bitset hashes to buckets of (bitset, state) entries,
    proved to be a set of configurations. */
module Cache {
  import opened Bitset
  import opened Search

  datatype CacheEntry<S> = CacheEntry(linearized: seq<Word>, state: S)

  type Table<S> = map<Word, seq<CacheEntry<S>>>

  ghost function ConfigOf<S>(e: CacheEntry<S>): Config<S> {
    Config(Contents(e.linearized), e.state)
  }

  /** Every entry has the table's bitset width and sits in the bucket of its hash. */
  ghost predicate Valid<S>(cache: Table<S>, chunks: nat) {
    forall k, i :: k in cache && 0 <= i < |cache[k]| ==>
      |cache[k][i].linearized| == chunks && HashOf(cache[k][i].linearized) == k
  }

  ghost function Bucket<S>(cache: Table<S>, k: Word): set<Config<S>>
    requires k in cache
  {
    set i | 0 <= i < |cache[k]| :: ConfigOf(cache[k][i])
  }

  /** The configurations in the table. */
  ghost function Entries<S>(cache: Table<S>): set<Config<S>> {
    set k, cfg | k in cache && cfg in Bucket(cache, k) :: cfg
  }

  method CacheContains<S(==)>(cache: Table<S>, entry: CacheEntry<S>, ghost chunks: nat) returns (found: bool)
    requires Valid(cache, chunks) && |entry.linearized| == chunks
    ensures found <==> ConfigOf(entry) in Entries(cache)
  {
    var hash := Hash(entry.linearized);
    found := false;
    if hash in cache {
      var bucket := cache[hash];
      for n := 0 to |bucket|
        invariant forall i :: 0 <= i < n ==> ConfigOf(bucket[i]) != ConfigOf(entry)
      {
        var same := Equals(entry.linearized, bucket[n].linearized);
        if same && entry.state == bucket[n].state {
          assert ConfigOf(entry) in Bucket(cache, hash);
          return true;
        }
      }
    }
    forall k | k in cache ensures ConfigOf(entry) !in Bucket(cache, k) {
      forall i | 0 <= i < |cache[k]| ensures ConfigOf(cache[k][i]) != ConfigOf(entry) {
        SameSetSameWords(cache[k][i].linearized, entry.linearized);
      }
    }
  }

  /** cache[hash] = append(cache[hash], entry) */
  function Insert<S>(cache: Table<S>, hash: Word, entry: CacheEntry<S>): Table<S> {
    cache[hash := (if hash in cache then cache[hash] else []) + [entry]]
  }

  lemma InsertKeeps<S>(cache: Table<S>, hash: Bitset.Word, entry: CacheEntry<S>)
    ensures forall k {:trigger Bucket(cache, k)} :: k in cache ==>
      k in Insert(cache, hash, entry) && Bucket(cache, k) <= Bucket(Insert(cache, hash, entry), k)
  {
    var cache' := Insert(cache, hash, entry);
    forall k, cfg | k in cache && cfg in Bucket(cache, k) ensures k in cache' && cfg in Bucket(cache', k) {
      var i :| 0 <= i < |cache[k]| && cfg == ConfigOf(cache[k][i]);
      assert cache'[k][i] == cache[k][i];
    }
  }

  lemma InsertAdds<S>(cache: Table<S>, entry: CacheEntry<S>, chunks: nat)
    requires Valid(cache, chunks) && |entry.linearized| == chunks
    ensures Valid(Insert(cache, HashOf(entry.linearized), entry), chunks)
    ensures Entries(Insert(cache, HashOf(entry.linearized), entry)) == Entries(cache) + {ConfigOf(entry)}
  {
    var hash := HashOf(entry.linearized);
    var old_ := if hash in cache then cache[hash] else [];
    var cache' := Insert(cache, hash, entry);
    assert cache'[hash] == old_ + [entry];
    InsertKeeps(cache, hash, entry);
    assert ConfigOf(cache'[hash][|old_|]) in Bucket(cache', hash);
    forall k, cfg | k in cache' && cfg in Bucket(cache', k) ensures cfg in Entries(cache) + {ConfigOf(entry)} {
      var i :| 0 <= i < |cache'[k]| && cfg == ConfigOf(cache'[k][i]);
      if k != hash || i < |old_| {
        assert cache'[k][i] == cache[k][i];
        assert cfg in Bucket(cache, k);
      }
    }
    forall cfg | cfg in Entries(cache) ensures cfg in Entries(cache') {
      var k :| k in cache && cfg in Bucket(cache, k);
      assert cfg in Bucket(cache', k);
    }
  }
}
